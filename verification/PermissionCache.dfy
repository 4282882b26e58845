/** The cached permission snapshot of one membership: readers that fill it, role changes that delete it
    after their commit, deletes that fail, and entries that expire. */
module PermissionCache {
  import opened Common
  import opened TenantRoles

  // ---- the cached text -----------------------------------------------------------------------------

  /** What is stored: a list of names, or text that is not one. */
  datatype Payload = Garbage | Names(names: seq<string>)

  function NameOf(c: Code): string {
    match c
    case MembersRead => "members.read"
    case MembersInvite => "members.invite"
    case RolesManage => "roles.manage"
    case CustomersRead => "customers.read"
    case CustomersWrite => "customers.write"
    case TicketsReadAll => "tickets.read.all"
    case TicketsUpdateAll => "tickets.update.all"
    case TicketsManageWorkflow => "tickets.manage.workflow"
    case TicketsCommentInternal => "tickets.comment.internal"
  }

  function CodeOf(name: string): Option<Code> {
    if name == "members.read" then Some(MembersRead)
    else if name == "members.invite" then Some(MembersInvite)
    else if name == "roles.manage" then Some(RolesManage)
    else if name == "customers.read" then Some(CustomersRead)
    else if name == "customers.write" then Some(CustomersWrite)
    else if name == "tickets.read.all" then Some(TicketsReadAll)
    else if name == "tickets.update.all" then Some(TicketsUpdateAll)
    else if name == "tickets.manage.workflow" then Some(TicketsManageWorkflow)
    else if name == "tickets.comment.internal" then Some(TicketsCommentInternal)
    else None
  }

  /** All codes in the order of their names. */
  const BY_NAME: seq<Code> :=
    [CustomersRead, CustomersWrite, MembersInvite, MembersRead, RolesManage,
     TicketsCommentInternal, TicketsManageWorkflow, TicketsReadAll, TicketsUpdateAll]

  function NamesIn(codes: seq<Code>, perms: set<Code>): seq<string>
  {
    if codes == [] then [] else (if codes[0] in perms then [NameOf(codes[0])] else []) + NamesIn(codes[1..], perms)
  }

  /** The sorted names of a permission set. */
  function Dumped(perms: set<Code>): Payload {
    Names(NamesIn(BY_NAME, perms))
  }

  function CodesOf(names: seq<string>): Option<set<Code>> {
    if names == [] then Some({})
    else
      var first, rest := CodeOf(names[0]), CodesOf(names[1..]);
      if first.None? || rest.None? then None else Some({first.value} + rest.value)
  }

  /** The permission set read back; none when the text is no list or a name is unknown. */
  function Loaded(p: Payload): Option<set<Code>> {
    if p.Garbage? then None else CodesOf(p.names)
  }

  lemma CodeOfName(c: Code)
    ensures CodeOf(NameOf(c)) == Some(c)
  {
  }

  function Among(codes: seq<Code>, perms: set<Code>): set<Code> {
    set c | c in codes && c in perms
  }

  lemma {:induction false} CodesOfNamesIn(codes: seq<Code>, perms: set<Code>)
    ensures CodesOf(NamesIn(codes, perms)) == Some(Among(codes, perms))
  {
    if codes == [] {
      assert Among(codes, perms) == {};
    } else {
      CodesOfNamesIn(codes[1..], perms);
      CodeOfName(codes[0]);
      var names := NamesIn(codes, perms);
      if codes[0] in perms {
        assert names[0] == NameOf(codes[0]) && names[1..] == NamesIn(codes[1..], perms);
        assert Among(codes, perms) == {codes[0]} + Among(codes[1..], perms);
      } else {
        assert names == NamesIn(codes[1..], perms);
        assert Among(codes, perms) == Among(codes[1..], perms);
      }
    }
  }

  lemma EveryCodeByName(c: Code)
    ensures c in BY_NAME
  {
  }

  /** What a reader caches is what the next reader gets back. */
  lemma LoadedDumped(perms: set<Code>)
    ensures Loaded(Dumped(perms)) == Some(perms)
  {
    CodesOfNamesIn(BY_NAME, perms);
    forall c | c in perms ensures c in BY_NAME {
      EveryCodeByName(c);
    }
    assert Among(BY_NAME, perms) == perms;
  }

  /** The codes by the names they are stored under. */
  lemma NamesByValue(c: Code)
    ensures match c
            case MembersRead => NameOf(c) == "members.read"
            case MembersInvite => NameOf(c) == "members.invite"
            case RolesManage => NameOf(c) == "roles.manage"
            case CustomersRead => NameOf(c) == "customers.read"
            case CustomersWrite => NameOf(c) == "customers.write"
            case TicketsReadAll => NameOf(c) == "tickets.read.all"
            case TicketsUpdateAll => NameOf(c) == "tickets.update.all"
            case TicketsManageWorkflow => NameOf(c) == "tickets.manage.workflow"
            case TicketsCommentInternal => NameOf(c) == "tickets.comment.internal"
  {
  }

  lemma CodeOfIsItsName(name: string)
    ensures CodeOf(name).Some? ==> NameOf(CodeOf(name).value) == name
    ensures CodeOf(name).None? ==> forall c :: NameOf(c) != name
  {
  }

  ghost predicate Known(name: string) {
    exists c :: NameOf(c) == name
  }

  /** A list is read exactly when every entry is the name of a code, and then as the codes named in it. */
  lemma {:induction false} ReadExactlyWhen(names: seq<string>)
    ensures Loaded(Names(names)).Some? <==> forall name :: name in names ==> Known(name)
    ensures Loaded(Names(names)).Some? ==> forall c :: c in Loaded(Names(names)).value <==> NameOf(c) in names
    ensures Loaded(Garbage).None?
    decreases |names|
  {
    if names != [] {
      var first, rest := names[0], names[1..];
      ReadExactlyWhen(rest);
      CodeOfIsItsName(first);
      assert forall name :: name in names <==> name == first || name in rest;
      if CodeOf(first).Some? {
        assert Known(first);
        forall c ensures NameOf(c) == first <==> c == CodeOf(first).value {
          CodeOfName(c);
        }
      } else {
        assert first in names && !Known(first);
      }
      hide CodeOf, NameOf, Known;
    }
  }

  /** Character by character, `a` comes before `b`. */
  predicate EarlierAt(a: string, b: string, i: nat) {
    i < |a| && i < |b| && a[..i] == b[..i] && a[i] < b[i]
  }

  ghost predicate Earlier(a: string, b: string) {
    exists i: nat :: EarlierAt(a, b, i)
  }

  lemma EarlierTransitive(a: string, b: string, c: string)
    requires Earlier(a, b) && Earlier(b, c)
    ensures Earlier(a, c)
  {
    var i: nat, j: nat :| EarlierAt(a, b, i) && EarlierAt(b, c, j);
    var k := Min(i, j);
    assert a[..k] == a[..i][..k] && b[..k] == b[..i][..k] && b[..k] == b[..j][..k] && c[..k] == c[..j][..k];
    if i < j {
      assert b[i] == b[..j][i] && c[i] == c[..j][i];
    } else if j < i {
      assert a[j] == a[..i][j] && b[j] == b[..i][j];
    }
    assert EarlierAt(a, c, k);
  }

  lemma NamesAscend(i: nat)
    requires i + 1 < |BY_NAME|
    ensures Earlier(NameOf(BY_NAME[i]), NameOf(BY_NAME[i + 1]))
  {
    var at := [10, 0, 8, 0, 0, 8, 8, 8];
    assert EarlierAt(NameOf(BY_NAME[i]), NameOf(BY_NAME[i + 1]), at[i]);
  }

  /** The names after the first come later than it. */
  lemma {:induction false} NamesAscendFrom(i: nat, j: nat)
    requires i < j < |BY_NAME|
    ensures Earlier(NameOf(BY_NAME[i]), NameOf(BY_NAME[j]))
    decreases j
  {
    NamesAscend(j - 1);
    if i < j - 1 {
      NamesAscendFrom(i, j - 1);
      EarlierTransitive(NameOf(BY_NAME[i]), NameOf(BY_NAME[j - 1]), NameOf(BY_NAME[j]));
    }
  }

  ghost predicate Ascending(names: seq<string>) {
    forall i, j :: 0 <= i < j < |names| ==> Earlier(names[i], names[j])
  }

  lemma FirstAscends(first: string, rest: seq<string>)
    requires Ascending(rest) && forall name :: name in rest ==> Earlier(first, name)
    ensures Ascending([first] + rest)
  {
    hide Earlier;
    var names := [first] + rest;
    forall i, j | 0 <= i < j < |names| ensures Earlier(names[i], names[j]) {
      assert names[j] == rest[j - 1] && rest[j - 1] in rest;
      assert i > 0 ==> names[i] == rest[i - 1];
    }
  }

  predicate NamedFrom(k: nat, name: string) {
    exists i :: k <= i < |BY_NAME| && NameOf(BY_NAME[i]) == name
  }

  lemma {:induction false} NamesInAscend(k: nat, perms: set<Code>)
    requires k <= |BY_NAME|
    ensures Ascending(NamesIn(BY_NAME[k..], perms))
    ensures forall name :: name in NamesIn(BY_NAME[k..], perms) ==> NamedFrom(k, name)
    decreases |BY_NAME| - k
  {
    hide Earlier, Ascending, NameOf;
    if k == |BY_NAME| {
      assert BY_NAME[k..] == [];
      NothingAscends();
    } else {
      assert BY_NAME[k..][0] == BY_NAME[k] && BY_NAME[k..][1..] == BY_NAME[k + 1..];
      NamesInAscend(k + 1, perms);
      var rest := NamesIn(BY_NAME[k + 1..], perms);
      assert NamesIn(BY_NAME[k..], perms) == (if BY_NAME[k] in perms then [NameOf(BY_NAME[k])] else []) + rest;
      forall name | name in rest ensures Earlier(NameOf(BY_NAME[k]), name) && NamedFrom(k, name) {
        assert NamedFrom(k + 1, name);
        var i :| k + 1 <= i < |BY_NAME| && NameOf(BY_NAME[i]) == name;
        NamesAscendFrom(k, i);
      }
      FirstAscends(NameOf(BY_NAME[k]), rest);
      assert NamedFrom(k, NameOf(BY_NAME[k]));
      assert [] + rest == rest;
    }
  }

  lemma NothingAscends()
    ensures Ascending([])
  {
  }

  /** The names are written in ascending order, each once. */
  lemma DumpedIsSorted(perms: set<Code>)
    ensures Dumped(perms).Names? && Ascending(Dumped(perms).names)
  {
    hide Ascending;
    NamesInAscend(0, perms);
    assert BY_NAME[0..] == BY_NAME;
  }

  // ---- readers and writers, interleaved -------------------------------------------------------------

  /** A cached value; as history when it was read from the database and stored, whether a role change
      was committed in between (`crossed`), and whether a delete meant for it failed (`spared`). */
  datatype Entry = Entry(payload: Payload, expiresAt: int, selectedAt: int, setAt: int, crossed: bool, spared: bool)

  /** A reader between its database read and its store. */
  datatype Fill = Fill(value: set<Code>, selectedAt: int, crossed: bool)

  datatype Version = Version(value: set<Code>, since: int)

  /** An answer from the cache, with the times its entry was read and stored. */
  datatype Hit = Hit(value: set<Code>, at: int, selectedAt: int, setAt: int)

  datatype Config = Config(ttl: nat, maxJitter: nat)

  datatype State = State(
    now: int,
    perms: set<Code>,
    versions: seq<Version>,
    entry: Option<Entry>,
    fills: map<nat, Fill>,
    pending: set<nat>,
    hits: seq<Hit>)

  datatype Step =
    | Tick(elapsed: nat)
    | Commit(writer: nat, perms: set<Code>)      // a role change is committed
    | Invalidate(writer: nat, deleted: bool)     // its delete goes through, or fails, or its process died
    | Answer                                     // a reader looks the key up
    | Select(reader: nat)                        // a reader reads the database
    | Store(reader: nat, jitter: nat, stored: bool)
    | Drop                                       // the key goes: evicted, or dropped by a reader that could not load it
    | Garble                                     // the key's text becomes unreadable

  predicate Live(e: Option<Entry>, now: int) {
    e.Some? && now < e.value.expiresAt
  }

  /** What a look-up finds: nothing when the key is gone or its text cannot be loaded. */
  function Found(e: Option<Entry>, now: int): Option<set<Code>> {
    if Live(e, now) then Loaded(e.value.payload) else None
  }

  function Start(now: int, perms: set<Code>): State {
    State(now, perms, [Version(perms, now)], None, map[], {}, [])
  }

  function Crossing(fills: map<nat, Fill>): map<nat, Fill> {
    map r | r in fills :: fills[r].(crossed := true)
  }

  function Stored(c: Config, now: int, f: Fill, jitter: nat): Entry {
    Entry(Dumped(f.value), now + c.ttl + Min(jitter, c.maxJitter), f.selectedAt, now, f.crossed, false)
  }

  function Committed(s: State, writer: nat, perms: set<Code>): State {
    s.(perms := perms, versions := s.versions + [Version(perms, s.now)], fills := Crossing(s.fills),
    pending := s.pending + {writer})
  }

  function Invalidated(s: State, writer: nat, deleted: bool): State {
    s.(pending := s.pending - {writer},
    entry := if deleted || s.entry.None? then None else Some(s.entry.value.(spared := true)))
  }

  function Answered(s: State): State {
    var found := Found(s.entry, s.now);
    if found.None? then s
    else s.(hits := s.hits + [Hit(found.value, s.now, s.entry.value.selectedAt, s.entry.value.setAt)])
  }

  function Filling(s: State, reader: nat): State {
    s.(fills := s.fills[reader := Fill(s.perms, s.now, false)])
  }

  function Filled(c: Config, s: State, reader: nat, jitter: nat, stored: bool): State
    requires reader in s.fills
  {
    s.(fills := s.fills - {reader},
    entry := if stored then Some(Stored(c, s.now, s.fills[reader], jitter)) else s.entry)
  }

  function Apply(c: Config, s: State, step: Step): State {
    match step
    case Tick(elapsed) => s.(now := s.now + elapsed)
    case Commit(writer, perms) => if writer in s.pending then s else Committed(s, writer, perms)
    case Invalidate(writer, deleted) => if writer in s.pending then Invalidated(s, writer, deleted) else s
    case Answer => Answered(s)
    case Select(reader) => Filling(s, reader)
    case Store(reader, jitter, stored) => if reader in s.fills then Filled(c, s, reader, jitter, stored) else s
    case Drop => s.(entry := None)
    case Garble => if s.entry.None? then s else s.(entry := Some(s.entry.value.(payload := Garbage)))
  }

  function Run(c: Config, s: State, steps: seq<Step>): State
    decreases |steps|
  {
    if steps == [] then s else Run(c, Apply(c, s, steps[0]), steps[1..])
  }

  /** Time passes, an entry is evicted or garbled, a role change is committed and is then the current set, at any
      moment; a reader that is done is no longer between query and store. */
  lemma AnythingMayHappen(c: Config, s: State, elapsed: nat, writer: nat, perms: set<Code>, reader: nat, jitter: nat,
                          stored: bool)
    ensures Apply(c, s, Tick(elapsed)) == s.(now := s.now + elapsed)
    ensures Apply(c, s, Drop) == s.(entry := None)
    ensures var t := Apply(c, s, Garble);
            t == s.(entry := t.entry) && Found(t.entry, t.now).None? && (t.entry.Some? <==> s.entry.Some?)
    ensures writer !in s.pending ==>
              var t := Apply(c, s, Commit(writer, perms));
              t.perms == perms && t.pending == s.pending + {writer} && t.entry == s.entry
              && t.fills.Keys == s.fills.Keys
    ensures Apply(c, s, Select(reader)).fills.Keys == s.fills.Keys + {reader}
    ensures Apply(c, s, Store(reader, jitter, stored)).fills.Keys == s.fills.Keys - {reader}
    ensures !stored ==> Apply(c, s, Store(reader, jitter, stored)).entry == s.entry
    ensures writer !in s.pending ==> Apply(c, s, Invalidate(writer, stored)) == s
    ensures reader !in s.fills ==> Apply(c, s, Store(reader, jitter, stored)) == s
  {
  }

  // ---- bounded staleness ---------------------------------------------------------------------------

  /** The database held `value` at instant `at`. */
  ghost predicate WasCurrent(versions: seq<Version>, value: set<Code>, at: int) {
    exists i :: Current(versions, i, value, at)
  }

  ghost predicate Current(versions: seq<Version>, i: int, value: set<Code>, at: int) {
    && 0 <= i < |versions| && versions[i].value == value && versions[i].since <= at
    && (i + 1 < |versions| ==> at <= versions[i + 1].since)
  }

  ghost predicate EntryDated(c: Config, s: State, e: Entry) {
    && e.selectedAt <= e.setAt <= s.now
    && e.expiresAt <= e.setAt + c.ttl + c.maxJitter
    && (Loaded(e.payload).Some? ==> WasCurrent(s.versions, Loaded(e.payload).value, e.selectedAt))
  }

  ghost predicate FillDated(s: State, f: Fill) {
    f.selectedAt <= s.now && WasCurrent(s.versions, f.value, f.selectedAt)
  }

  ghost predicate HitDated(c: Config, s: State, h: Hit) {
    && h.selectedAt <= h.setAt <= h.at <= s.now
    && h.at - h.selectedAt < c.ttl + c.maxJitter + (h.setAt - h.selectedAt)
    && WasCurrent(s.versions, h.value, h.selectedAt)
  }

  ghost predicate Dated(c: Config, s: State) {
    && s.versions != [] && s.versions[|s.versions| - 1].value == s.perms && s.versions[|s.versions| - 1].since <= s.now
    && (s.entry.Some? ==> EntryDated(c, s, s.entry.value))
    && (forall r | r in s.fills :: FillDated(s, s.fills[r]))
    && (forall i :: 0 <= i < |s.hits| ==> HitDated(c, s, s.hits[i]))
  }

  lemma StillWasCurrent(versions: seq<Version>, v: Version, value: set<Code>, at: int)
    requires WasCurrent(versions, value, at) && at <= v.since
    ensures WasCurrent(versions + [v], value, at)
  {
    var i :| Current(versions, i, value, at);
    assert Current(versions + [v], i, value, at);
  }

  lemma CommitKeepsDated(c: Config, s: State, writer: nat, perms: set<Code>)
    requires Dated(c, s)
    ensures Dated(c, Apply(c, s, Commit(writer, perms)))
  {
    var t := Apply(c, s, Commit(writer, perms));
    if writer !in s.pending {
      var v := Version(perms, s.now);
      if s.entry.Some? && Loaded(s.entry.value.payload).Some? {
        StillWasCurrent(s.versions, v, Loaded(s.entry.value.payload).value, s.entry.value.selectedAt);
      }
      forall r | r in t.fills ensures FillDated(t, t.fills[r]) {
        StillWasCurrent(s.versions, v, s.fills[r].value, s.fills[r].selectedAt);
      }
      forall i | 0 <= i < |t.hits| ensures HitDated(c, t, t.hits[i]) {
        StillWasCurrent(s.versions, v, s.hits[i].value, s.hits[i].selectedAt);
      }
    }
  }

  lemma StoredIsDated(c: Config, s: State, f: Fill, jitter: nat)
    requires FillDated(s, f)
    ensures EntryDated(c, s, Stored(c, s.now, f, jitter))
  {
    LoadedDumped(f.value);
  }

  lemma StepKeepsDated(c: Config, s: State, step: Step)
    requires Dated(c, s)
    ensures Dated(c, Apply(c, s, step))
  {
    match step {
      case Commit(writer, perms) => CommitKeepsDated(c, s, writer, perms);
      case Select(_) => assert Current(s.versions, |s.versions| - 1, s.perms, s.now);
      case Store(reader, jitter, _) =>
        if reader in s.fills {
          StoredIsDated(c, s, s.fills[reader], jitter);
        }
      case _ =>
    }
  }

  lemma {:induction false} RunKeepsDated(c: Config, s: State, steps: seq<Step>)
    requires Dated(c, s)
    ensures Dated(c, Run(c, s, steps))
    decreases |steps|
  {
    hide Apply, Dated;
    if steps != [] {
      StepKeepsDated(c, s, steps[0]);
      RunKeepsDated(c, Apply(c, s, steps[0]), steps[1..]);
    }
  }

  /** However readers, role changes, failed deletes and evictions interleave, every answer given from the
      cache is the permission set the database held at a moment no further back than the entry's
      lifetime with its jitter, plus the time its reader took between reading and storing it. */
  lemma HitsAreBoundedlyStale(c: Config, now: int, perms: set<Code>, steps: seq<Step>, i: nat)
    requires i < |Run(c, Start(now, perms), steps).hits|
    ensures var s := Run(c, Start(now, perms), steps);
            var h := s.hits[i];
            && WasCurrent(s.versions, h.value, h.selectedAt)
            && h.selectedAt <= h.at < h.selectedAt + c.ttl + c.maxJitter + (h.setAt - h.selectedAt)
  {
    RunKeepsDated(c, Start(now, perms), steps);
    assert HitDated(c, Run(c, Start(now, perms), steps), Run(c, Start(now, perms), steps).hits[i]);
  }

  // ---- exactness -------------------------------------------------------------------------------------

  /** Every readable entry equals the join, or there is a reason: a role change still to be followed by
      its delete, a failed delete, or a role change in the middle of the fill. */
  ghost predicate Explained(s: State) {
    && (s.entry.Some? ==>
          var e := s.entry.value;
          e.crossed || e.spared || s.pending != {} || Loaded(e.payload).None? || Loaded(e.payload) == Some(s.perms))
    && (forall r | r in s.fills :: s.fills[r].crossed || s.fills[r].value == s.perms)
  }

  lemma StepKeepsExplained(c: Config, s: State, step: Step)
    requires Explained(s)
    ensures Explained(Apply(c, s, step))
  {
    if step.Store? && step.reader in s.fills {
      LoadedDumped(s.fills[step.reader].value);
    }
  }

  /** In every reachable state, without any assumption on the interleaving. */
  lemma {:induction false} StaleOnlyForAReason(c: Config, s: State, steps: seq<Step>)
    requires Explained(s)
    ensures Explained(Run(c, s, steps))
    decreases |steps|
  {
    hide Apply, Explained;
    if steps != [] {
      StepKeepsExplained(c, s, steps[0]);
      StaleOnlyForAReason(c, Apply(c, s, steps[0]), steps[1..]);
    }
  }

  /** No role change falls into a fill, and no delete fails. */
  predicate Undisturbed(c: Config, s: State, steps: seq<Step>)
    decreases |steps|
  {
    steps != [] ==>
      && (steps[0].Commit? ==> s.fills == map[])
      && (steps[0].Invalidate? ==> steps[0].deleted)
      && Undisturbed(c, Apply(c, s, steps[0]), steps[1..])
  }

  ghost predicate Clean(s: State) {
    && (s.entry.Some? ==> !s.entry.value.crossed && !s.entry.value.spared)
    && (forall r | r in s.fills :: !s.fills[r].crossed)
  }

  lemma {:induction false} UndisturbedStaysClean(c: Config, s: State, steps: seq<Step>)
    requires Clean(s) && Undisturbed(c, s, steps)
    ensures Clean(Run(c, s, steps))
    decreases |steps|
  {
    if steps != [] {
      UndisturbedStaysClean(c, Apply(c, s, steps[0]), steps[1..]);
    }
  }

  /** Then, whenever every committed role change has had its delete, a look-up finds nothing or exactly
      the database's permission set. */
  lemma UndisturbedRunsAreExact(c: Config, now: int, perms: set<Code>, steps: seq<Step>)
    requires Undisturbed(c, Start(now, perms), steps)
    requires Run(c, Start(now, perms), steps).pending == {}
    ensures var s := Run(c, Start(now, perms), steps);
            Found(s.entry, s.now) in {None, Some(s.perms)}
  {
    UndisturbedStaysClean(c, Start(now, perms), steps);
    StaleOnlyForAReason(c, Start(now, perms), steps);
  }

  lemma TwoSteps(c: Config, s: State, a: Step, b: Step)
    ensures Run(c, s, [a, b]) == Apply(c, Apply(c, s, a), b)
  {
    assert [a, b][1..] == [b] && [b][1..] == [];
    assert Run(c, Apply(c, s, a), [b]) == Run(c, Apply(c, Apply(c, s, a), b), []);
  }

  // ---- exactly when a role change takes effect --------------------------------------------------------

  /** A look-up finds nothing, or the database's set. */
  predicate Right(s: State) {
    Found(s.entry, s.now) in {None, Some(s.perms)}
  }

  predicate FillsHold(fills: map<nat, Fill>, perms: set<Code>) {
    forall r | r in fills :: fills[r].value == perms
  }

  predicate Quiet(steps: seq<Step>) {
    forall i :: 0 <= i < |steps| ==> !steps[i].Commit?
  }

  /** However the run goes on, look-ups are right until the next role change. */
  ghost predicate ExactFromHere(c: Config, s: State) {
    forall more: seq<Step> | Quiet(more) :: Right(Run(c, s, more))
  }

  lemma GarbageIsNotLoaded()
    ensures Loaded(Garbage).None?
  {
  }

  lemma QuietStepKeepsRight(c: Config, s: State, step: Step)
    requires Right(s) && FillsHold(s.fills, s.perms) && !step.Commit?
    ensures var t := Apply(c, s, step); Right(t) && FillsHold(t.fills, t.perms)
  {
    hide Loaded, Dumped;
    LoadedDumped(s.perms);
    GarbageIsNotLoaded();
  }

  lemma {:induction false} QuietRunKeepsRight(c: Config, s: State, more: seq<Step>)
    requires Right(s) && FillsHold(s.fills, s.perms) && Quiet(more)
    ensures Right(Run(c, s, more))
    decreases |more|
  {
    hide Apply, Right, FillsHold;
    if more != [] {
      QuietStepKeepsRight(c, s, more[0]);
      QuietRunKeepsRight(c, Apply(c, s, more[0]), more[1..]);
    }
  }

  lemma OneStep(c: Config, s: State, step: Step)
    ensures Run(c, s, [step]) == Apply(c, s, step)
  {
    assert [step][1..] == [];
  }

  /** A reader that holds another set stores it, and the next look-up finds it. */
  lemma StoredFillIsFound(c: Config, s: State, r: nat)
    requires c.ttl >= 1 && r in s.fills
    ensures var t := Apply(c, s, Store(r, 0, true));
            t.perms == s.perms && Found(t.entry, t.now) == Some(s.fills[r].value)
  {
    hide Loaded, Dumped;
    LoadedDumped(s.fills[r].value);
  }

  /** In any state: look-ups stay right until the next role change if and only if the next one is, and
      every reader between its query and its store holds the current set. */
  lemma ExactFromHereExactlyWhen(c: Config, s: State)
    requires c.ttl >= 1
    ensures ExactFromHere(c, s) <==> Right(s) && FillsHold(s.fills, s.perms)
  {
    if Right(s) && FillsHold(s.fills, s.perms) {
      forall more: seq<Step> | Quiet(more) ensures Right(Run(c, s, more)) {
        QuietRunKeepsRight(c, s, more);
      }
    } else if !Right(s) {
      assert Quiet([]) && Run(c, s, []) == s;
    } else {
      var r :| r in s.fills && s.fills[r].value != s.perms;
      var more := [Store(r, 0, true)];
      OneStep(c, s, more[0]);
      StoredFillIsFound(c, s, r);
      assert Quiet(more) && !Right(Run(c, s, more));
    }
  }

  /** A role change and its delete, in any state: from then on look-ups are right until the next role
      change if and only if every reader that was under way holds the new set already and, where the
      delete failed, a look-up would have found nothing or the new set even before. */
  lemma RoleChangeTakesEffectExactlyWhen(c: Config, s: State, writer: nat, after: set<Code>, deleted: bool)
    requires c.ttl >= 1 && writer !in s.pending
    ensures ExactFromHere(c, Run(c, s, [Commit(writer, after), Invalidate(writer, deleted)])) <==>
            FillsHold(s.fills, after) && (deleted || Found(s.entry, s.now) in {None, Some(after)})
  {
    var t := Invalidated(Committed(s, writer, after), writer, deleted);
    TwoSteps(c, s, Commit(writer, after), Invalidate(writer, deleted));
    ExactFromHereExactlyWhen(c, t);
    assert t.fills == Crossing(s.fills);
    assert FillsHold(t.fills, after) <==> FillsHold(s.fills, after) by {
      assert forall r | r in s.fills :: t.fills[r].value == s.fills[r].value;
    }
  }

  /** From any state: a reader that holds another set than the new one and stores it after the delete
      leaves that set cached, with its role change followed by its delete as it should be. */
  lemma CrossedFillOutlivesDelete(c: Config, s: State, writer: nat, after: set<Code>, r: nat)
    requires c.ttl >= 1 && writer !in s.pending && r in s.fills && s.fills[r].value != after
    ensures var t := Apply(c, Run(c, s, [Commit(writer, after), Invalidate(writer, true)]), Store(r, 0, true));
            t.pending == s.pending && t.perms == after && Found(t.entry, t.now) == Some(s.fills[r].value)
  {
    TwoSteps(c, s, Commit(writer, after), Invalidate(writer, true));
    StoredFillIsFound(c, Invalidated(Committed(s, writer, after), writer, true), r);
  }

  lemma StoredThenTick(c: Config, s: State, r: nat, jitter: nat, elapsed: nat)
    requires r in s.fills
    ensures Apply(c, Apply(c, s, Store(r, jitter, true)), Tick(elapsed))
         == Filled(c, s, r, jitter, true).(now := s.now + elapsed)
  {
    hide Stored;
  }

  /** A set that was stored is found, whatever the database does, until its lifetime with its jitter is over,
      and not after. */
  lemma FoundUntilItExpires(c: Config, s: State, r: nat, jitter: nat, elapsed: nat)
    requires r in s.fills
    ensures var t := Run(c, s, [Store(r, jitter, true), Tick(elapsed)]);
            Found(t.entry, t.now)
            == if elapsed < c.ttl + (if jitter <= c.maxJitter then jitter else c.maxJitter) then Some(s.fills[r].value)
            else None
  {
    hide Loaded, Dumped, Run, Apply;
    LoadedDumped(s.fills[r].value);
    TwoSteps(c, s, Store(r, jitter, true), Tick(elapsed));
    StoredThenTick(c, s, r, jitter, elapsed);
  }

  // ---- the code of one read and of one delete --------------------------------------------------------

  /** Which of the calls to the store fail; each failure is swallowed. */
  datatype Faults = Faults(get: bool, drop: bool, store: bool)

  /** A read without interruption: the steps it consists of, one after another. */
  function AfterRead(c: Config, s: State, reader: nat, jitter: nat, f: Faults): State {
    if !f.get && Found(s.entry, s.now).Some? then Answered(s)
    else
      var s := if !f.get && Live(s.entry, s.now) && !f.drop then s.(entry := None) else s;
      Filled(c, Filling(s, reader), reader, jitter, !f.store)
  }

  function Count(happened: bool): (n: nat)
    ensures n <= 1 && (n == 1 <==> happened)
  {
    if happened then 1 else 0
  }

  class RBACService {
    const config: Config
    var now: int
    var join: set<Code>
    var entry: Option<Entry>
    var found: nat
    var misses: nat
    var writes: nat
    var invalidations: nat
    var failures: nat
    ghost var versions: seq<Version>
    ghost var fills: map<nat, Fill>
    ghost var pending: set<nat>
    ghost var hits: seq<Hit>

    constructor (config: Config, now: int, join: set<Code>)
      ensures S() == Start(now, join) && this.config == config
    {
      this.config, this.now, this.join, entry := config, now, join, None;
      found, misses, writes, invalidations, failures := 0, 0, 0, 0, 0;
      versions, fills, pending, hits := [Version(join, now)], map[], {}, [];
    }

    ghost function S(): State
      reads this
    {
      State(now, join, versions, entry, fills, pending, hits)
    }

    method MembershipPermissions(reader: nat, jitter: nat, f: Faults) returns (permissions: set<Code>)
      modifies this
      ensures S() == AfterRead(config, old(S()), reader, jitter, f)
      ensures var cached := Found(old(entry), old(now));
              permissions == if !f.get && cached.Some? then cached.value else old(join)
      ensures found == old(found) + Count(!f.get && Live(old(entry), old(now)))
      ensures misses == old(misses) + Count(!f.get && !Live(old(entry), old(now)))
      ensures var filled := f.get || Found(old(entry), old(now)).None?;
              var unreadable := !f.get && Live(old(entry), old(now)) && filled;
              && writes == old(writes) + Count(filled && !f.store)
              && invalidations == old(invalidations) + Count(unreadable && !f.drop)
              && failures == old(failures) + Count(f.get) + Count(unreadable && f.drop) + Count(filled && f.store)
    {
      hide Loaded, Dumped, Filled, Filling;
      if f.get {
        failures := failures + 1;
      } else if entry.None? || now >= entry.value.expiresAt {
        misses := misses + 1;
      } else {
        found := found + 1;
        var loaded := Loaded(entry.value.payload);
        if loaded.Some? {
          hits := hits + [Hit(loaded.value, now, entry.value.selectedAt, entry.value.setAt)];
          return loaded.value;
        }
        if f.drop {
          failures := failures + 1;
        } else {
          entry := None;
          invalidations := invalidations + 1;
        }
      }
      permissions := ReadAndStore(reader, jitter, f.store);
    }

    method ReadAndStore(reader: nat, jitter: nat, fails: bool) returns (permissions: set<Code>)
      modifies this
      ensures S() == Filled(config, Filling(old(S()), reader), reader, jitter, !fails)
      ensures permissions == old(join)
      ensures writes == old(writes) + Count(!fails) && failures == old(failures) + Count(fails)
      ensures found == old(found) && misses == old(misses) && invalidations == old(invalidations)
    {
      hide Dumped;
      permissions := join;
      ghost var fill := Fill(join, now, false);
      fills := fills[reader := fill];
      var expiresAt := now + config.ttl + Min(jitter, config.maxJitter);
      if fails {
        failures := failures + 1;
      } else {
        entry := Some(Entry(Dumped(permissions), expiresAt, now, now, false, false));
        writes := writes + 1;
      }
      fills := fills - {reader};
    }

    method InvalidatePermissions(writer: nat, fails: bool)
      requires writer in pending
      modifies this
      ensures S() == Invalidated(old(S()), writer, !fails)
      ensures invalidations == old(invalidations) + Count(!fails) && failures == old(failures) + Count(fails)
    {
      pending := pending - {writer};
      if fails {
        failures := failures + 1;
        entry := if entry.None? then None else Some(entry.value.(spared := true));
      } else {
        entry := None;
        invalidations := invalidations + 1;
      }
    }
  }

  function ReadSteps(s: State, reader: nat, jitter: nat, f: Faults): seq<Step> {
    if !f.get && Found(s.entry, s.now).Some? then [Answer]
    else (if !f.get && Live(s.entry, s.now) && !f.drop then [Drop] else [])
         + [Select(reader), Store(reader, jitter, !f.store)]
  }

  /** A read is a run, so what holds of every run holds of the code of `MembershipPermissions`. */
  lemma ReadIsARun(c: Config, s: State, reader: nat, jitter: nat, f: Faults)
    ensures AfterRead(c, s, reader, jitter, f) == Run(c, s, ReadSteps(s, reader, jitter, f))
  {
    var steps := ReadSteps(s, reader, jitter, f);
    var fill := [Select(reader), Store(reader, jitter, !f.store)];
    if steps == [Answer] {
      assert steps[1..] == [];
    } else if steps[0] == Drop {
      assert steps[1..] == fill;
      TwoSteps(c, s.(entry := None), fill[0], fill[1]);
    } else {
      assert steps == fill;
      TwoSteps(c, s, fill[0], fill[1]);
    }
  }

  /** What a read leaves in the cache: nothing new on a hit; otherwise the join, good from now for its lifetime and
      jitter; or, if it cannot be stored, what was there, unless that was unreadable and could be dropped. */
  lemma ReadLeaves(c: Config, s: State, reader: nat, jitter: nat, f: Faults)
    ensures var t := AfterRead(c, s, reader, jitter, f);
            var live := s.entry.Some? && s.now < s.entry.value.expiresAt;
            var hit := !f.get && live && Loaded(s.entry.value.payload).Some?;
            && t.now == s.now && t.perms == s.perms && t.pending == s.pending && t.versions == s.versions
            && (hit ==> t.entry == s.entry && |t.hits| == |s.hits| + 1
                        && t.hits[|s.hits|].value == Loaded(s.entry.value.payload).value
                        && t.hits[|s.hits|].at == s.now)
            && (!hit && !f.store ==>
                  && t.entry.Some? && Loaded(t.entry.value.payload) == Some(s.perms)
                  && t.entry.value.expiresAt == s.now + c.ttl + (if jitter <= c.maxJitter then jitter else c.maxJitter))
            && (!hit && f.store ==> t.entry == if !f.get && live && !f.drop then None else s.entry)
            && (!hit ==> t.hits == s.hits)
  {
    LoadedDumped(s.perms);
    hide Loaded, Dumped;
  }

  /** A reader that is not interrupted answers with the database's own set, unless a look-up finds one. */
  lemma UninterruptedReadIsClean(c: Config, s: State, reader: nat, jitter: nat, f: Faults)
    requires Found(s.entry, s.now).None? || f.get
    ensures var t := AfterRead(c, s, reader, jitter, f);
            && t.perms == s.perms
            && (!f.store ==> t.entry.Some? && Loaded(t.entry.value.payload) == Some(s.perms)
                             && !t.entry.value.crossed && !t.entry.value.spared)
  {
    LoadedDumped(s.perms);
  }
}
