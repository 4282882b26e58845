/** Submissions, any number of concurrent dispatchers, and a broker that accepts copies at once. A
    dispatcher holds its rows locked until it commits or dies; only a commit changes the table. */
module OutboxProtocol {
  import opened Common
  import opened Outbox

  /** A run in progress: rows still to publish, new versions of the rows tried (not committed), and the
      jobs whose copy the broker confirmed to this run. */
  datatype Dispatcher = Dispatcher(now: int, todo: seq<int>, tried: Table, accepted: set<int>)

  /** `broker` counts accepted copies per job. `wasted` is history: copies whose dispatcher never got to
      commit them, because it died or because the publish call raised although the copy had arrived. */
  datatype State = State(
    jobs: set<int>,
    table: Table,
    broker: multiset<int>,
    wasted: multiset<int>,
    runs: map<int, Dispatcher>)

  datatype Step =
    | Submit(job: int, message: int, at: int)
    | Begin(run: int, now: int)
    | Publish(run: int, outcome: PublishOutcome, arrived: bool)
    | Commit(run: int)
    | Die(run: int)

  const EMPTY := State({}, map[], multiset{}, multiset{}, map[])

  function RowsOf(d: Dispatcher): set<int> {
    (set id | id in d.todo) + d.tried.Keys
  }

  function Locked(s: State): set<int> {
    set r, id | r in s.runs && id in RowsOf(s.runs[r]) :: id
  }

  /** The job and its message row are inserted by one commit; both ids are unique. */
  function SubmitStep(s: State, job: int, message: int, at: int): State {
    if job in s.jobs || message in s.table then s
    else s.(jobs := s.jobs + {job}, table := s.table[message := Message(job, at, Pending, 0, at, None, None)])
  }

  function PublishStep(cfg: Settings, s: State, run: int, outcome: PublishOutcome, arrived: bool): State
    requires run in s.runs
  {
    var d := s.runs[run];
    if d.todo == [] || d.todo[0] !in s.table then s
    else
      var id, row := d.todo[0], s.table[d.todo[0]];
      var next := d.(todo := d.todo[1..], tried := d.tried[id := AfterPublish(row, outcome, d.now, cfg)]);
      if outcome.Accepted? then
        s.(runs := s.runs[run := next.(accepted := d.accepted + {row.jobId})], broker := s.broker + multiset{row.jobId})
      else if arrived then
        s.(runs := s.runs[run := next], broker := s.broker + multiset{row.jobId},
        wasted := s.wasted + multiset{row.jobId})
      else
        s.(runs := s.runs[run := next])
  }

  function Apply(cfg: Settings, s: State, step: Step): State {
    match step
    case Submit(job, message, at) => SubmitStep(s, job, message, at)
    case Begin(run, now) =>
      if run in s.runs then s
      else s.(runs := s.runs[run := Dispatcher(now, ListPending(s.table, Locked(s), now, cfg.batchSize), map[], {})])
    case Publish(run, outcome, arrived) => if run in s.runs then PublishStep(cfg, s, run, outcome, arrived) else s
    case Commit(run) =>
      if run !in s.runs || s.runs[run].todo != [] then s
      else s.(table := s.table + s.runs[run].tried, runs := s.runs - {run})
    case Die(run) =>
      if run !in s.runs then s
      else s.(runs := s.runs - {run}, wasted := s.wasted + multiset(s.runs[run].accepted))
  }

  function Run(cfg: Settings, s: State, steps: seq<Step>): State
    decreases |steps|
  {
    if steps == [] then s else Run(cfg, Apply(cfg, s, steps[0]), steps[1..])
  }

  ghost predicate OneMessagePerJob(jobs: set<int>, table: Table) {
    && (forall m :: m in table ==> table[m].jobId in jobs)
    && (forall m, n :: m in table && n in table && table[m].jobId == table[n].jobId ==> m == n)
    && (forall j :: j in jobs ==> exists m :: m in table && table[m].jobId == j)
  }

  ghost predicate DispatcherMatches(table: Table, d: Dispatcher) {
    && NoDuplicates(d.todo)
    && (forall id :: id in d.todo ==> id !in d.tried)
    && (forall id :: id in RowsOf(d) ==> id in table && table[id].status == Pending)
    && (forall id :: id in d.tried ==>
                       d.tried[id].jobId == table[id].jobId
                       && (d.tried[id].status == Published <==> table[id].jobId in d.accepted))
    && (forall j :: j in d.accepted ==> exists id :: id in d.tried && d.tried[id].jobId == j)
  }

  type Runs = map<int, Dispatcher>

  ghost predicate Holds(runs: Runs, r: int, job: int) {
    r in runs && job in runs[r].accepted
  }

  /** Copies of the job confirmed to a run in progress; no two runs hold the same. */
  ghost function Held(runs: Runs, job: int): nat {
    if exists r :: Holds(runs, r, job) then 1 else 0
  }

  function Delivered(m: Message): nat {
    if m.status == Published then 1 else 0
  }

  /** The job's copies: wasted, committed as published, or held by a run in progress. */
  ghost predicate Counted(s: State, m: int)
    requires m in s.table
  {
    var job := s.table[m].jobId;
    s.broker[job] == s.wasted[job] + Delivered(s.table[m]) + Held(s.runs, job)
  }

  ghost predicate CountsMatch(s: State) {
    forall m {:trigger Counted(s, m)} | m in s.table :: Counted(s, m)
  }

  ghost predicate CopiesKnown(s: State) {
    forall j :: j in s.broker || j in s.wasted ==> j in s.jobs
  }

  ghost predicate AllMatch(table: Table, runs: Runs) {
    forall r {:trigger DispatcherMatches(table, runs[r])} | r in runs :: DispatcherMatches(table, runs[r])
  }

  ghost predicate Disjoint(runs: Runs, r: int, q: int)
    requires r in runs && q in runs
  {
    r != q ==> RowsOf(runs[r]) !! RowsOf(runs[q])
  }

  ghost predicate AllDisjoint(runs: Runs) {
    forall r, q {:trigger Disjoint(runs, r, q)} | r in runs && q in runs :: Disjoint(runs, r, q)
  }

  ghost predicate Safe(s: State) {
    && OneMessagePerJob(s.jobs, s.table)
    && AllMatch(s.table, s.runs)
    && AllDisjoint(s.runs)
    && CountsMatch(s)
    && CopiesKnown(s)
  }

  // ---- how confirmed copies move -----------------------------------------------------------------

  lemma HeldWithNew(runs: Runs, run: int, d: Dispatcher, job: int)
    requires run !in runs && d.accepted == {}
    ensures Held(runs[run := d], job) == Held(runs, job)
  {
    if r :| Holds(runs, r, job) {
      assert Holds(runs[run := d], r, job);
    }
    var after := runs[run := d];
    if r :| Holds(after, r, job) {
      assert Holds(runs, r, job);
    }
  }

  lemma HeldAfterPublish(runs: Runs, run: int, d: Dispatcher, job: int, confirmed: bool, j: int)
    requires run in runs && d.accepted == runs[run].accepted + if confirmed then {job} else {}
    ensures Held(runs[run := d], j) == if j == job && confirmed then 1 else Held(runs, j)
  {
    var after := runs[run := d];
    assert confirmed ==> Holds(after, run, job);
    if r :| Holds(runs, r, j) {
      assert Holds(after, r, j);
    }
    if r :| Holds(after, r, j) {
      assert Holds(runs, r, j) || (j == job && confirmed);
    }
  }

  lemma HeldWithout(runs: Runs, run: int, job: int)
    requires run in runs
    requires Holds(runs, run, job) ==> forall r :: Holds(runs, r, job) ==> r == run
    ensures Held(runs, job) == Held(runs - {run}, job) + if Holds(runs, run, job) then 1 else 0
  {
    if r :| Holds(runs - {run}, r, job) {
      assert Holds(runs, r, job) && r != run;
    }
    if r :| Holds(runs, r, job) && r != run {
      assert Holds(runs - {run}, r, job);
    }
  }

  // ---- submission -------------------------------------------------------------------------------

  lemma SubmitKeepsPairs(s: State, job: int, message: int, at: int)
    requires OneMessagePerJob(s.jobs, s.table) && job !in s.jobs && message !in s.table
    ensures var t := SubmitStep(s, job, message, at);
            OneMessagePerJob(t.jobs, t.table)
  {
    var t := SubmitStep(s, job, message, at);
    assert t.table[message].jobId == job;
    forall j | j in t.jobs ensures exists m :: m in t.table && t.table[m].jobId == j {
      if j != job {
        var m :| m in s.table && s.table[m].jobId == j;
        assert t.table[m].jobId == j;
      }
    }
  }

  lemma DispatcherUnaffected(table: Table, bigger: Table, d: Dispatcher)
    requires DispatcherMatches(table, d)
    requires forall m :: m in table ==> m in bigger && bigger[m] == table[m]
    ensures DispatcherMatches(bigger, d)
  {
  }

  lemma AcceptedIsJob(jobs: set<int>, table: Table, d: Dispatcher, job: int)
    requires OneMessagePerJob(jobs, table) && DispatcherMatches(table, d) && job in d.accepted
    ensures job in jobs
  {
    var id :| id in d.tried && d.tried[id].jobId == job;
    assert id in RowsOf(d);
  }

  lemma NewJobNotHeld(s: State, job: int)
    requires Safe(s) && job !in s.jobs
    ensures Held(s.runs, job) == 0
  {
    forall r ensures !Holds(s.runs, r, job) {
      if r in s.runs {
        assert DispatcherMatches(s.table, s.runs[r]);
        assert job in s.runs[r].accepted ==> job in s.jobs by {
          if job in s.runs[r].accepted {
            AcceptedIsJob(s.jobs, s.table, s.runs[r], job);
          }
        }
      }
    }
  }

  lemma SubmitKeepsSafe(s: State, job: int, message: int, at: int)
    requires Safe(s) && job !in s.jobs && message !in s.table
    ensures Safe(SubmitStep(s, job, message, at))
  {
    hide OneMessagePerJob, DispatcherMatches, Held, Disjoint;
    var t := SubmitStep(s, job, message, at);
    SubmitKeepsPairs(s, job, message, at);
    forall r | r in t.runs ensures DispatcherMatches(t.table, t.runs[r]) {
      DispatcherUnaffected(s.table, t.table, s.runs[r]);
    }
    NewJobNotHeld(s, job);
    assert job !in s.broker && job !in s.wasted;
    forall m | m in t.table ensures Counted(t, m) {
      assert m != message ==> Counted(s, m);
    }
  }

  // ---- a new run -----------------------------------------------------------------------------------

  lemma LockedHolds(s: State, r: int, id: int)
    requires r in s.runs && id in RowsOf(s.runs[r])
    ensures id in Locked(s)
  {
  }

  function Opened(cfg: Settings, s: State, now: int): Dispatcher {
    Dispatcher(now, ListPending(s.table, Locked(s), now, cfg.batchSize), map[], {})
  }

  lemma OpenedMatches(cfg: Settings, s: State, now: int)
    ensures DispatcherMatches(s.table, Opened(cfg, s, now))
    ensures RowsOf(Opened(cfg, s, now)) !! Locked(s)
  {
    BatchIsDue(s.table, Locked(s), now, cfg.batchSize);
  }

  lemma OpenedIsApart(cfg: Settings, s: State, run: int, now: int, r: int, q: int)
    requires run !in s.runs && AllDisjoint(s.runs)
    requires r in s.runs[run := Opened(cfg, s, now)] && q in s.runs[run := Opened(cfg, s, now)]
    ensures Disjoint(s.runs[run := Opened(cfg, s, now)], r, q)
  {
    OpenedMatches(cfg, s, now);
    if r != run && q != run {
      assert Disjoint(s.runs, r, q);
    } else if r != q {
      var other := if r == run then q else r;
      forall id | id in RowsOf(s.runs[other]) ensures id in Locked(s) {
        LockedHolds(s, other, id);
      }
    }
  }

  lemma BeginKeepsSafe(cfg: Settings, s: State, run: int, now: int)
    requires Safe(s) && run !in s.runs
    ensures Safe(s.(runs := s.runs[run := Opened(cfg, s, now)]))
  {
    hide OneMessagePerJob, DispatcherMatches, Held, Disjoint, RowsOf, Locked;
    var t := s.(runs := s.runs[run := Opened(cfg, s, now)]);
    forall r | r in t.runs ensures DispatcherMatches(t.table, t.runs[r]) {
      if r == run {
        OpenedMatches(cfg, s, now);
      }
    }
    forall r, q | r in t.runs && q in t.runs ensures Disjoint(t.runs, r, q) {
      OpenedIsApart(cfg, s, run, now, r, q);
    }
    forall m | m in t.table ensures Counted(t, m) {
      assert Counted(s, m);
      HeldWithNew(s.runs, run, Opened(cfg, s, now), s.table[m].jobId);
    }
  }

  // ---- a publish -------------------------------------------------------------------------------------

  lemma AcceptedRow(jobs: set<int>, table: Table, d: Dispatcher, m: int)
    requires OneMessagePerJob(jobs, table) && DispatcherMatches(table, d) && m in table && table[m].jobId in d.accepted
    ensures m in d.tried && m in RowsOf(d)
  {
    var id :| id in d.tried && d.tried[id].jobId == table[m].jobId;
    assert id in RowsOf(d);
  }

  /** Only the dispatcher that holds a message's row can hold a confirmed copy of its job. */
  lemma HolderHasRow(s: State, r: int, m: int)
    requires Safe(s) && m in s.table && Holds(s.runs, r, s.table[m].jobId)
    ensures m in s.runs[r].tried && m in RowsOf(s.runs[r])
  {
    AcceptedRow(s.jobs, s.table, s.runs[r], m);
  }

  lemma OneHolder(s: State, r: int, q: int, m: int)
    requires Safe(s) && m in s.table && r in s.runs && m in RowsOf(s.runs[r]) && Holds(s.runs, q, s.table[m].jobId)
    ensures q == r
  {
    HolderHasRow(s, q, m);
    assert Disjoint(s.runs, r, q);
  }

  lemma NotHeldBeforePublish(s: State, run: int)
    requires Safe(s) && run in s.runs && s.runs[run].todo != []
    ensures var id := s.runs[run].todo[0];
            && id in s.table && s.table[id].status == Pending && id in RowsOf(s.runs[run])
            && Held(s.runs, s.table[id].jobId) == 0 && s.table[id].jobId !in s.runs[run].accepted
  {
    var d, id := s.runs[run], s.runs[run].todo[0];
    assert DispatcherMatches(s.table, d) && id in d.todo && id in RowsOf(d);
    forall r ensures !Holds(s.runs, r, s.table[id].jobId) {
      if Holds(s.runs, r, s.table[id].jobId) {
        HolderHasRow(s, r, id);
        OneHolder(s, run, r, id);
      }
    }
    assert !Holds(s.runs, run, s.table[id].jobId);
  }

  lemma DispatcherPublishes(table: Table, d: Dispatcher, next: Dispatcher, row: Message)
    requires DispatcherMatches(table, d) && d.todo != [] && d.todo[0] in table
    requires forall m, n :: m in table && n in table && table[m].jobId == table[n].jobId ==> m == n
    requires table[d.todo[0]].jobId !in d.accepted
    requires row.jobId == table[d.todo[0]].jobId
    requires next == d.(todo := d.todo[1..], tried := d.tried[d.todo[0] := row],
                     accepted := d.accepted + if row.status == Published then {row.jobId} else {})
    ensures DispatcherMatches(table, next) && RowsOf(next) == RowsOf(d)
  {
    var id := d.todo[0];
    assert d.todo == [id] + d.todo[1..];
    assert forall x :: x in d.todo <==> x == id || x in d.todo[1..];
    assert id !in d.todo[1..];
    forall j | j in next.accepted ensures exists x :: x in next.tried && next.tried[x].jobId == j {
      if j in d.accepted {
        var x :| x in d.tried && d.tried[x].jobId == j;
        assert x in RowsOf(d) && next.tried[x] == d.tried[x];
      } else {
        assert next.tried[id].jobId == j;
      }
    }
    forall x | x in d.tried ensures x != id && x in table && table[x].jobId != table[id].jobId {
      assert x in RowsOf(d);
    }
  }

  /** The dispatcher after its first row was tried. */
  function Tried(cfg: Settings, s: State, run: int, outcome: PublishOutcome): Dispatcher
    requires run in s.runs && s.runs[run].todo != [] && s.runs[run].todo[0] in s.table
  {
    var d, id := s.runs[run], s.runs[run].todo[0];
    var row := AfterPublish(s.table[id], outcome, d.now, cfg);
    d.(todo := d.todo[1..], tried := d.tried[id := row],
    accepted := d.accepted + if outcome.Accepted? then {row.jobId} else {})
  }

  lemma TriedMatches(cfg: Settings, s: State, run: int, outcome: PublishOutcome)
    requires Safe(s) && run in s.runs && s.runs[run].todo != [] && s.runs[run].todo[0] in s.table
    ensures DispatcherMatches(s.table, Tried(cfg, s, run, outcome))
    ensures RowsOf(Tried(cfg, s, run, outcome)) == RowsOf(s.runs[run])
  {
    var d, id := s.runs[run], s.runs[run].todo[0];
    NotHeldBeforePublish(s, run);
    assert DispatcherMatches(s.table, d);
    DispatcherPublishes(s.table, d, Tried(cfg, s, run, outcome), AfterPublish(s.table[id], outcome, d.now, cfg));
  }

  lemma PublishIsTried(cfg: Settings, s: State, run: int, outcome: PublishOutcome, arrived: bool)
    requires run in s.runs && s.runs[run].todo != [] && s.runs[run].todo[0] in s.table
    ensures var job := s.table[s.runs[run].todo[0]].jobId;
            var t := PublishStep(cfg, s, run, outcome, arrived);
            && t.jobs == s.jobs && t.table == s.table
            && t.runs == s.runs[run := Tried(cfg, s, run, outcome)]
            && t.broker == s.broker + (if outcome.Accepted? || arrived then multiset{job} else multiset{})
            && t.wasted == s.wasted + (if !outcome.Accepted? && arrived then multiset{job} else multiset{})
  {
    assert s.broker + multiset{} == s.broker && s.wasted + multiset{} == s.wasted;
    assert s.runs[run].accepted + {} == s.runs[run].accepted;
  }

  lemma PublishKeepsCount(cfg: Settings, s: State, t: State, run: int, outcome: PublishOutcome, arrived: bool, m: int)
    requires Safe(s) && run in s.runs && s.runs[run].todo != [] && s.runs[run].todo[0] in s.table
    requires t == PublishStep(cfg, s, run, outcome, arrived) && m in s.table
    ensures m in t.table && Counted(t, m)
  {
    var id := s.runs[run].todo[0];
    assert Counted(s, m);
    NotHeldBeforePublish(s, run);
    PublishIsTried(cfg, s, run, outcome, arrived);
    hide PublishStep, Held, Safe;
    HeldAfterPublish(s.runs, run, Tried(cfg, s, run, outcome), s.table[id].jobId, outcome.Accepted?, s.table[m].jobId);
  }

  lemma PublishKeepsSafe(cfg: Settings, s: State, run: int, outcome: PublishOutcome, arrived: bool)
    requires Safe(s) && run in s.runs && s.runs[run].todo != []
    ensures Safe(PublishStep(cfg, s, run, outcome, arrived))
  {
    var t, id := PublishStep(cfg, s, run, outcome, arrived), s.runs[run].todo[0];
    NotHeldBeforePublish(s, run);
    PublishIsTried(cfg, s, run, outcome, arrived);
    TriedMatches(cfg, s, run, outcome);
    assert s.table[id].jobId in s.jobs;
    hide PublishStep, Tried, DispatcherMatches, Counted, RowsOf, OneMessagePerJob;
    forall r, q | r in t.runs && q in t.runs ensures Disjoint(t.runs, r, q) {
      assert Disjoint(s.runs, r, q);
    }
    forall m | m in t.table ensures Counted(t, m) {
      PublishKeepsCount(cfg, s, t, run, outcome, arrived, m);
    }
  }

  // ---- a commit, or the death of a run -----------------------------------------------------------------

  lemma OthersApart(runs: Runs, run: int)
    requires AllDisjoint(runs)
    ensures AllDisjoint(runs - {run})
  {
    forall r, q | r in runs - {run} && q in runs - {run} ensures Disjoint(runs - {run}, r, q) {
      assert Disjoint(runs, r, q);
    }
  }

  /** What a run holds of message `m`'s job when it ends. */
  lemma ReleasedCount(s: State, run: int, m: int)
    requires Safe(s) && run in s.runs && m in s.table
    ensures Held(s.runs, s.table[m].jobId)
         == Held(s.runs - {run}, s.table[m].jobId) + if s.table[m].jobId in s.runs[run].accepted then 1 else 0
  {
    var job := s.table[m].jobId;
    forall r | Holds(s.runs, run, job) && Holds(s.runs, r, job) ensures r == run {
      HolderHasRow(s, run, m);
      OneHolder(s, run, r, m);
    }
    HeldWithout(s.runs, run, job);
  }

  /** The rows a run tried, by the job they belong to. */
  lemma TriedRows(s: State, run: int, m: int)
    requires Safe(s) && run in s.runs && m in s.table
    ensures var d := s.runs[run];
            && d.tried.Keys <= s.table.Keys
            && (m in d.tried ==>
                  && d.tried[m].jobId == s.table[m].jobId && s.table[m].status == Pending
                  && (d.tried[m].status == Published <==> s.table[m].jobId in d.accepted))
            && (m !in d.tried ==> s.table[m].jobId !in d.accepted)
  {
    var d := s.runs[run];
    assert DispatcherMatches(s.table, d);
    forall id | id in d.tried ensures id in s.table && s.table[id].status == Pending {
      assert id in RowsOf(d);
    }
    if s.table[m].jobId in d.accepted {
      AcceptedRow(s.jobs, s.table, d, m);
    }
  }

  lemma CommitKeepsPairs(s: State, run: int)
    requires Safe(s) && run in s.runs
    ensures OneMessagePerJob(s.jobs, s.table + s.runs[run].tried)
    ensures (s.table + s.runs[run].tried).Keys == s.table.Keys
  {
    var table := s.table + s.runs[run].tried;
    forall m | m in s.table ensures table[m].jobId == s.table[m].jobId {
      TriedRows(s, run, m);
    }
    forall m | m in s.runs[run].tried ensures m in s.table {
      assert DispatcherMatches(s.table, s.runs[run]) && m in RowsOf(s.runs[run]);
    }
    assert table.Keys == s.table.Keys;
    assert forall m :: m in table <==> m in table.Keys;
    forall j | j in s.jobs ensures exists m :: m in table && table[m].jobId == j {
      var m :| m in s.table && s.table[m].jobId == j;
      assert m in table && table[m].jobId == j;
    }
  }

  lemma OtherStillMatches(s: State, run: int, r: int)
    requires Safe(s) && run in s.runs && r in s.runs && r != run
    ensures DispatcherMatches(s.table + s.runs[run].tried, s.runs[r])
  {
    assert DispatcherMatches(s.table, s.runs[r]) && Disjoint(s.runs, r, run);
    assert forall id | id in RowsOf(s.runs[r]) :: id !in s.runs[run].tried;
  }

  lemma CommitKeepsCount(s: State, t: State, run: int, m: int)
    requires Safe(s) && run in s.runs && m in s.table
    requires t == s.(table := s.table + s.runs[run].tried, runs := s.runs - {run})
    ensures m in t.table && Counted(t, m)
  {
    hide Held;
    assert Counted(s, m);
    TriedRows(s, run, m);
    ReleasedCount(s, run, m);
  }

  lemma CommitKeepsSafe(s: State, t: State, run: int)
    requires Safe(s) && run in s.runs
    requires t == s.(table := s.table + s.runs[run].tried, runs := s.runs - {run})
    ensures Safe(t)
  {
    hide Counted, OneMessagePerJob, DispatcherMatches, Disjoint;
    CommitKeepsPairs(s, run);
    OthersApart(s.runs, run);
    forall r | r in t.runs ensures DispatcherMatches(t.table, t.runs[r]) {
      OtherStillMatches(s, run, r);
    }
    forall m | m in t.table ensures Counted(t, m) {
      assert m in t.table.Keys;
      CommitKeepsCount(s, t, run, m);
    }
  }

  lemma AcceptedAreJobs(s: State, run: int)
    requires Safe(s) && run in s.runs
    ensures s.runs[run].accepted <= s.jobs
  {
    forall j | j in s.runs[run].accepted ensures j in s.jobs {
      assert DispatcherMatches(s.table, s.runs[run]);
      AcceptedIsJob(s.jobs, s.table, s.runs[run], j);
    }
  }

  lemma DieKeepsSafe(s: State, run: int)
    requires Safe(s) && run in s.runs
    ensures Safe(s.(runs := s.runs - {run}, wasted := s.wasted + multiset(s.runs[run].accepted)))
  {
    hide Held, OneMessagePerJob, DispatcherMatches, Disjoint, RowsOf;
    var t := s.(runs := s.runs - {run}, wasted := s.wasted + multiset(s.runs[run].accepted));
    OthersApart(s.runs, run);
    AcceptedAreJobs(s, run);
    forall r | r in t.runs ensures DispatcherMatches(t.table, t.runs[r]) {
      assert DispatcherMatches(s.table, s.runs[r]);
    }
    forall m | m in t.table ensures Counted(t, m) {
      assert Counted(s, m);
      ReleasedCount(s, run, m);
    }
  }

  lemma StepKeepsSafe(cfg: Settings, s: State, step: Step)
    requires Safe(s)
    ensures Safe(Apply(cfg, s, step))
  {
    hide Safe, PublishStep, SubmitStep;
    match step {
      case Submit(job, message, at) =>
        if job !in s.jobs && message !in s.table {
          SubmitKeepsSafe(s, job, message, at);
        } else {
          assert SubmitStep(s, job, message, at) == s by {
            SubmitTwice(s, job, message, at);
          }
        }
      case Begin(run, now) =>
        if run !in s.runs {
          BeginKeepsSafe(cfg, s, run, now);
        }
      case Publish(run, outcome, arrived) =>
        if run in s.runs && s.runs[run].todo != [] {
          PublishKeepsSafe(cfg, s, run, outcome, arrived);
        } else if run in s.runs {
          NothingToPublish(cfg, s, run, outcome, arrived);
        }
      case Commit(run) =>
        if run in s.runs && s.runs[run].todo == [] {
          CommitKeepsSafe(s, Apply(cfg, s, step), run);
        }
      case Die(run) =>
        if run in s.runs {
          DieKeepsSafe(s, run);
        }
    }
  }

  lemma SubmitTwice(s: State, job: int, message: int, at: int)
    requires job in s.jobs || message in s.table
    ensures SubmitStep(s, job, message, at) == s
  {
  }

  lemma NothingToPublish(cfg: Settings, s: State, run: int, outcome: PublishOutcome, arrived: bool)
    requires run in s.runs && s.runs[run].todo == []
    ensures PublishStep(cfg, s, run, outcome, arrived) == s
  {
  }

  lemma {:induction false} RunKeepsSafe(cfg: Settings, s: State, steps: seq<Step>)
    requires Safe(s)
    ensures Safe(Run(cfg, s, steps))
    decreases |steps|
  {
    if steps != [] {
      StepKeepsSafe(cfg, s, steps[0]);
      RunKeepsSafe(cfg, Apply(cfg, s, steps[0]), steps[1..]);
    }
  }

  /** Over every run, with dispatchers dying anywhere: each committed job has exactly one message row;
      that row is still pending, or the broker accepted at least one copy; every copy names a committed
      job; and there is at most one copy more than those whose dispatcher could not commit them. */
  lemma NoJobLostOrInvented(cfg: Settings, steps: seq<Step>)
    ensures var s := Run(cfg, EMPTY, steps);
            && OneMessagePerJob(s.jobs, s.table)
            && (forall m :: m in s.table && s.table[m].status == Published ==> s.broker[s.table[m].jobId] >= 1)
            && (forall j :: j in s.broker ==> j in s.jobs)
            && (forall j :: j in s.jobs ==> s.broker[j] <= 1 + s.wasted[j])
  {
    RunKeepsSafe(cfg, EMPTY, steps);
    var s := Run(cfg, EMPTY, steps);
    forall m | m in s.table && s.table[m].status == Published ensures s.broker[s.table[m].jobId] >= 1 {
      assert Counted(s, m);
    }
    forall j | j in s.jobs ensures s.broker[j] <= 1 + s.wasted[j] {
      var m :| m in s.table && s.table[m].jobId == j;
      assert Counted(s, m);
      if r :| Holds(s.runs, r, j) {
        HolderHasRow(s, r, m);
        TriedRows(s, r, m);
      }
    }
  }
}
