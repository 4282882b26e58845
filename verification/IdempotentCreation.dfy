/** Creation under an idempotency key: read, then insert, and when the unique constraint on the key
    refuses the insert, roll back and read again. Ticket creation and job submission share this
    protocol; the second row of the effect is the created event or the outbox message. */
module IdempotentCreation {
  import opened Common

  /** One scope is a (tenant, member, key) triple. */
  datatype Scope = Scope(tenant: int, member: int, key: string)

  datatype Entry = Entry(requestHash: int, objectId: int)

  /** Committed rows: the key table, the created objects with the scope that created them, and the
      companion rows, counted per object. */
  datatype Store = Store(keys: map<Scope, Entry>, objects: map<int, Scope>, companions: multiset<int>)

  const EMPTY := Store(map[], map[], multiset{})

  /** A call: its scope, the hash of its request, the fresh id it would use, and whether the checks made
      only for a new key accept it. */
  datatype Call = Call(scope: Scope, requestHash: int, newId: int, acceptable: bool)

  datatype Result =
    | Created(objectId: int)
    | Replayed(objectId: int)
    | Conflict
    | Rejected
    | ObjectMissing
    | Failed

  /** `_replay`: the winner's object if the hashes agree and the object is still there. */
  function ReplayOf(s: Store, entry: Entry, requestHash: int): Result {
    if entry.requestHash != requestHash then Conflict
    else if entry.objectId !in s.objects then ObjectMissing
    else Replayed(entry.objectId)
  }

  function Inserted(s: Store, call: Call): Store {
    Store(s.keys[call.scope := Entry(call.requestHash, call.newId)],
          s.objects[call.newId := call.scope],
          s.companions + multiset{call.newId})
  }

  /** The sequential object this protocol stands for: a put-if-absent map. */
  function PutIfAbsent(s: Store, call: Call): (Store, Result) {
    if call.scope in s.keys then
      (s,
       if s.keys[call.scope].requestHash == call.requestHash then Replayed(s.keys[call.scope].objectId)
       else Conflict)
    else if !call.acceptable then (s, Rejected)
    else (Inserted(s, call), Created(call.newId))
  }

  /** Calls executed one after another. */
  function PutAll(s: Store, calls: seq<Call>): Store {
    if calls == [] then s else PutIfAbsent(PutAll(s, calls[..|calls| - 1]), calls[|calls| - 1]).0
  }

  lemma PutAllAppend(s: Store, calls: seq<Call>, i: nat)
    requires i < |calls|
    ensures PutAll(s, calls[..i + 1]) == PutIfAbsent(PutAll(s, calls[..i]), calls[i]).0
  {
    assert calls[..i + 1][..i] == calls[..i];
  }

  /** The commits of the service, on mutable tables. */
  class CreationTables {
    var keys: map<Scope, Entry>
    var objects: map<int, Scope>
    var companions: multiset<int>

    function Rows(): Store
      reads this
    {
      Store(keys, objects, companions)
    }

    constructor ()
      ensures Rows() == EMPTY
    {
      keys, objects, companions := map[], map[], multiset{};
    }

    /** One commit of all rows of an effect, or none when the key or the id is taken. */
    method Commit(call: Call) returns (ok: bool)
      modifies this
      ensures ok == (call.scope !in old(keys) && call.newId !in old(objects))
      ensures Rows() == if ok then Inserted(old(Rows()), call) else old(Rows())
    {
      ok := call.scope !in keys && call.newId !in objects;
      if ok {
        objects := objects[call.newId := call.scope];
        companions := companions + multiset{call.newId};
        keys := keys[call.scope := Entry(call.requestHash, call.newId)];
      }
    }

    /** A whole call. Between its read and its commit any number of rival calls may run, and the commit may
        fail for a reason of its own (`broken`). The outcome is that of the sequential operation, executed
        before or after the rivals. */
    method Create(call: Call, rivals: seq<Call>, broken: bool) returns (r: Result)
      requires OneEffectPerKey(Rows()) && call.newId !in objects
      requires forall i :: 0 <= i < |rivals| ==> rivals[i].newId !in objects && rivals[i].newId != call.newId
      requires forall i, j :: 0 <= i < j < |rivals| ==> rivals[i].newId != rivals[j].newId
      modifies this
      ensures OneEffectPerKey(Rows())
      ensures call.scope in old(keys) || !call.acceptable ==> (Rows(), r) == PutIfAbsent(old(Rows()), call)
      ensures call.scope !in old(keys) && call.acceptable ==>
                var between := PutAll(old(Rows()), rivals);
                if broken && call.scope !in between.keys then Rows() == between && r == Failed
                else (Rows(), r) == PutIfAbsent(between, call)
    {
      if call.scope in keys {
        return ReplayOf(Rows(), keys[call.scope], call.requestHash);
      }
      if !call.acceptable {
        return Rejected;
      }
      for i := 0 to |rivals|
        invariant OneEffectPerKey(Rows()) && Rows() == PutAll(old(Rows()), rivals[..i])
        invariant call.newId !in objects && forall j :: i <= j < |rivals| ==> rivals[j].newId !in objects
      {
        InsertIfAbsentKeepsOneEffect(Rows(), rivals[i]);
        PutAllAppend(old(Rows()), rivals, i);
        if rivals[i].acceptable {
          var _ := Commit(rivals[i]);
        }
      }
      assert rivals[..|rivals|] == rivals;
      ghost var between := Rows();
      var ok := false;
      if !broken {
        ok := Commit(call);
      }
      if !ok {
        if call.scope !in keys {
          return Failed;
        }
        return ReplayOf(Rows(), keys[call.scope], call.requestHash);
      }
      InsertKeepsOneEffect(between, call);
      r := Created(call.newId);
    }
  }

  // ---- concurrent calls ------------------------------------------------------------------------

  datatype Phase = Called | KeyUnseen | Refused | Returned(result: Result)

  datatype Client = Client(call: Call, phase: Phase)

  /** `history` lists the calls that have taken effect or been answered, in the order of the database. */
  datatype State = State(store: Store, clients: map<int, Client>, history: seq<(Call, Result)>)

  datatype Step =
    | Arrive(c: int, call: Call)
    | ReadKey(c: int)
    | TryCommit(c: int)
    | Reread(c: int)
    | Break(c: int)

  function Answer(s: State, c: int, store: Store, result: Result): State
    requires c in s.clients
  {
    State(store, s.clients[c := s.clients[c].(phase := Returned(result))], s.history + [(s.clients[c].call, result)])
  }

  function Moved(s: State, c: int, phase: Phase): State
    requires c in s.clients
  {
    s.(clients := s.clients[c := s.clients[c].(phase := phase)])
  }

  function Apply(s: State, step: Step): State {
    match step
    case Arrive(c, call) =>
      // Ids are fresh: no row and no other call uses the same one.
      if c in s.clients || call.newId in s.store.objects
         || (exists d :: d in s.clients && s.clients[d].call.newId == call.newId) then s
      else s.(clients := s.clients[c := Client(call, Called)])
    case ReadKey(c) =>
      if c !in s.clients || s.clients[c].phase != Called then s
      else
        var call := s.clients[c].call;
        if call.scope in s.store.keys then
          Answer(s, c, s.store, ReplayOf(s.store, s.store.keys[call.scope], call.requestHash))
        else if !call.acceptable then Answer(s, c, s.store, Rejected)
        else Moved(s, c, KeyUnseen)
    case TryCommit(c) =>
      if c !in s.clients || s.clients[c].phase != KeyUnseen then s
      else
        var call := s.clients[c].call;
        if call.scope in s.store.keys then Moved(s, c, Refused)
        else Answer(s, c, Inserted(s.store, call), Created(call.newId))
    case Break(c) =>
      // The commit fails for another constraint, for instance a customer deleted meanwhile.
      if c in s.clients && s.clients[c].phase == KeyUnseen then Moved(s, c, Refused) else s
    case Reread(c) =>
      if c !in s.clients || s.clients[c].phase != Refused then s
      else
        var call := s.clients[c].call;
        if call.scope in s.store.keys then
          Answer(s, c, s.store, ReplayOf(s.store, s.store.keys[call.scope], call.requestHash))
        else Answer(s, c, s.store, Failed)
  }

  function Run(s: State, steps: seq<Step>): State
    decreases |steps|
  {
    if steps == [] then s else Run(Apply(s, steps[0]), steps[1..])
  }

  const START := State(EMPTY, map[], [])

  /** The store after a sequence of calls executed one after another; a failed call does nothing. */
  function Sequential(history: seq<(Call, Result)>): Store {
    if history == [] then EMPTY else
    var before := Sequential(history[..|history| - 1]);
    var last := history[|history| - 1];
    if last.1 == Failed then before else PutIfAbsent(before, last.0).0
  }

  /** Every recorded answer is the one the sequential map gives at that point. */
  predicate Legal(history: seq<(Call, Result)>) {
    forall i :: 0 <= i < |history| ==>
                  history[i].1 != Failed ==> history[i].1 == PutIfAbsent(Sequential(history[..i]), history[i].0).1
  }

  ghost predicate OneEffectPerKey(s: Store) {
    && (forall k :: k in s.keys ==> s.keys[k].objectId in s.objects && s.objects[s.keys[k].objectId] == k)
    && (forall o :: o in s.objects ==> s.objects[o] in s.keys && s.keys[s.objects[o]].objectId == o)
    && (forall o :: s.companions[o] == if o in s.objects then 1 else 0)
  }

  ghost predicate ClientsMatch(s: State) {
    && (forall c, d ::
          c in s.clients && d in s.clients && s.clients[c].call.newId == s.clients[d].call.newId ==> c == d)
    && (forall c :: c in s.clients && !s.clients[c].phase.Returned? ==> s.clients[c].call.newId !in s.store.objects)
    && (forall c :: c in s.clients && s.clients[c].phase.Returned? ==>
                      (s.clients[c].call, s.clients[c].phase.result) in s.history)
    && (forall c :: c in s.clients && (s.clients[c].phase.KeyUnseen? || s.clients[c].phase.Refused?) ==>
                      s.clients[c].call.acceptable)
  }

  ghost predicate Safe(s: State) {
    && OneEffectPerKey(s.store)
    && ClientsMatch(s)
    && s.store == Sequential(s.history)
    && Legal(s.history)
  }

  lemma AnswerKeepsHistory(s: State, c: int, store: Store, result: Result)
    requires c in s.clients && s.store == Sequential(s.history) && Legal(s.history)
    requires if result == Failed then store == s.store else (store, result) == PutIfAbsent(s.store, s.clients[c].call)
    ensures var t := Answer(s, c, store, result);
            t.store == Sequential(t.history) && Legal(t.history)
  {
    var t := Answer(s, c, store, result);
    assert t.history[..|t.history| - 1] == s.history;
    forall i | 0 <= i < |t.history| && t.history[i].1 != Failed
      ensures t.history[i].1 == PutIfAbsent(Sequential(t.history[..i]), t.history[i].0).1
    {
      if i < |s.history| {
        assert t.history[..i] == s.history[..i] && t.history[i] == s.history[i];
      }
    }
  }

  lemma InsertKeepsOneEffect(s: Store, call: Call)
    requires OneEffectPerKey(s) && call.scope !in s.keys && call.newId !in s.objects
    ensures OneEffectPerKey(Inserted(s, call))
  {
  }

  lemma InsertIfAbsentKeepsOneEffect(s: Store, call: Call)
    requires OneEffectPerKey(s) && call.newId !in s.objects
    ensures OneEffectPerKey(PutIfAbsent(s, call).0)
  {
  }

  lemma AnswerKeepsClients(s: State, c: int, store: Store, result: Result)
    requires ClientsMatch(s) && c in s.clients
    requires forall o :: o in store.objects ==> o in s.store.objects || o == s.clients[c].call.newId
    ensures ClientsMatch(Answer(s, c, store, result))
  {
    var t := Answer(s, c, store, result);
    assert t.history[|s.history|] == (s.clients[c].call, result);
    assert forall x :: x in s.history ==> x in t.history;
  }

  lemma AnswerKeepsSafe(s: State, c: int, store: Store, result: Result)
    requires Safe(s) && c in s.clients && !s.clients[c].phase.Returned?
    requires if result == Failed then store == s.store else (store, result) == PutIfAbsent(s.store, s.clients[c].call)
    ensures Safe(Answer(s, c, store, result))
  {
    assert s.clients[c].call.newId !in s.store.objects;
    hide ClientsMatch, Sequential, Legal, OneEffectPerKey;
    AnswerKeepsHistory(s, c, store, result);
    AnswerKeepsClients(s, c, store, result);
    if store != s.store {
      InsertKeepsOneEffect(s.store, s.clients[c].call);
    }
  }

  lemma StepKeepsSafe(s: State, step: Step)
    requires Safe(s)
    ensures Safe(Apply(s, step))
  {
    var t := Apply(s, step);
    if t != s && !step.Arrive? {
      var call := s.clients[step.c].call;
      var known := call.scope in s.store.keys;
      if t.history != s.history {
        match step
        case TryCommit(c) => AnswerKeepsSafe(s, c, Inserted(s.store, call), Created(call.newId));
        case Reread(c) =>
          AnswerKeepsSafe(s, c, s.store,
                          if known then ReplayOf(s.store, s.store.keys[call.scope], call.requestHash)
                          else Failed);
        case ReadKey(c) =>
          AnswerKeepsSafe(s, c, s.store,
                          if known then ReplayOf(s.store, s.store.keys[call.scope], call.requestHash)
                          else Rejected);
        case _ =>
      }
    }
  }

  lemma {:induction false} RunKeepsSafe(s: State, steps: seq<Step>)
    requires Safe(s)
    ensures Safe(Run(s, steps))
    decreases |steps|
  {
    hide Apply, Safe;
    if steps != [] {
      StepKeepsSafe(s, steps[0]);
      RunKeepsSafe(Apply(s, steps[0]), steps[1..]);
    }
  }

  /** Any interleaving of any calls refines the sequential put-if-absent map: the committed rows are
      those of the answered calls executed one by one in commit order, every answer is the one that
      execution gives, every key has exactly one object with exactly one companion row, and every client
      that returned is in that history. */
  lemma RefinesPutIfAbsent(steps: seq<Step>)
    ensures var s := Run(START, steps);
            && s.store == Sequential(s.history)
            && Legal(s.history)
            && OneEffectPerKey(s.store)
            && (forall c :: c in s.clients && s.clients[c].phase.Returned? ==>
                              (s.clients[c].call, s.clients[c].phase.result) in s.history)
  {
    RunKeepsSafe(START, steps);
  }

  // ---- every call can get through --------------------------------------------------------------------

  lemma OneMoreStep(s: State, a: Step, more: seq<Step>)
    ensures Run(s, [a] + more) == Run(Apply(s, a), more)
    ensures Run(s, []) == s
  {
    assert ([a] + more)[1..] == more;
  }

  predicate Fresh(s: State, c: int, call: Call) {
    && c !in s.clients && call.newId !in s.store.objects
    && forall d :: d in s.clients ==> s.clients[d].call.newId != call.newId
  }

  /** The client arrives and reads that its key is unknown. */
  lemma ReadsNothing(s: State, c: int, call: Call)
    requires Fresh(s, c, call) && call.scope !in s.store.keys && call.acceptable
    ensures Apply(Apply(s, Arrive(c, call)), ReadKey(c)) == s.(clients := s.clients[c := Client(call, KeyUnseen)])
  {
    var t := Apply(s, Arrive(c, call));
    assert t == s.(clients := s.clients[c := Client(call, Called)]);
    assert s.clients[c := Client(call, Called)][c := Client(call, KeyUnseen)]
        == s.clients[c := Client(call, KeyUnseen)];
  }

  /** A call that nothing interrupts does what the sequential map does, and tells its client so. */
  lemma UndisturbedCall(s: State, c: int, call: Call)
    requires Fresh(s, c, call) && (call.scope in s.store.keys ==> s.store.keys[call.scope].objectId in s.store.objects)
    ensures var t := Run(s, [Arrive(c, call), ReadKey(c), TryCommit(c)]);
            && c in t.clients && t.clients[c].phase.Returned?
            && (t.store, t.clients[c].phase.result) == PutIfAbsent(s.store, call)
            && (forall d :: d in s.clients ==> d in t.clients && t.clients[d] == s.clients[d])
  {
    var t := Apply(s, Arrive(c, call));
    OneMoreStep(s, Arrive(c, call), [ReadKey(c), TryCommit(c)]);
    OneMoreStep(t, ReadKey(c), [TryCommit(c)]);
    OneMoreStep(Apply(t, ReadKey(c)), TryCommit(c), []);
    if call.scope !in s.store.keys && call.acceptable {
      ReadsNothing(s, c, call);
    }
  }

  /** Two calls under one new key that both read before either commits: the first to commit creates, the other
      is refused by the key, reads again, and gets the first one's object, or a conflict if it asked otherwise. */
  lemma TheLoserGetsTheWinner(s: State, c: int, mine: Call, d: int, other: Call)
    requires c != d && Fresh(s, c, mine) && Fresh(s, d, other) && mine.newId != other.newId
    requires mine.scope == other.scope && mine.scope !in s.store.keys && mine.acceptable && other.acceptable
    ensures var read := Apply(Apply(Apply(Apply(s, Arrive(c, mine)), ReadKey(c)), Arrive(d, other)), ReadKey(d));
            var t := Apply(Apply(Apply(read, TryCommit(c)), TryCommit(d)), Reread(d));
            && c in t.clients && t.clients[c].phase == Returned(Created(mine.newId))
            && d in t.clients
            && t.clients[d].phase == Returned(if mine.requestHash == other.requestHash then Replayed(mine.newId)
                                              else Conflict)
            && t.store == Inserted(s.store, mine)
  {
    ReadsNothing(s, c, mine);
    var one := s.(clients := s.clients[c := Client(mine, KeyUnseen)]);
    ReadsNothing(one, d, other);
    var two := one.(clients := one.clients[d := Client(other, KeyUnseen)]);
    var won := Apply(two, TryCommit(c));
    assert won.store == Inserted(s.store, mine) && won.clients[d] == Client(other, KeyUnseen);
    assert Apply(won, TryCommit(d)).clients[d] == Client(other, Refused);
  }

  /** A commit that fails for a reason of its own leaves no row, and the client learns that it failed. */
  lemma BrokenCommitLeavesNothing(s: State, c: int, call: Call)
    requires Fresh(s, c, call) && call.scope !in s.store.keys && call.acceptable
    ensures var read := Apply(Apply(s, Arrive(c, call)), ReadKey(c));
            var t := Apply(Apply(read, Break(c)), Reread(c));
            t.store == s.store && c in t.clients && t.clients[c].phase == Returned(Failed)
  {
    ReadsNothing(s, c, call);
  }

  lemma StepKeepsAnswers(s: State, step: Step, c: int)
    requires c in s.clients
    ensures var t := Apply(s, step);
            && c in t.clients && t.clients[c].call == s.clients[c].call
            && (s.clients[c].phase.Returned? ==> t.clients[c] == s.clients[c])
            && s.history <= t.history
  {
  }

  /** A client's call is its own throughout a run, and its answer, once given, is never taken back. */
  lemma {:induction false} AnswersAreKept(s: State, steps: seq<Step>, c: int)
    requires c in s.clients
    ensures var t := Run(s, steps);
            && c in t.clients && t.clients[c].call == s.clients[c].call
            && (s.clients[c].phase.Returned? ==> t.clients[c] == s.clients[c])
            && s.history <= t.history
    decreases |steps|
  {
    hide Apply;
    if steps != [] {
      StepKeepsAnswers(s, steps[0], c);
      AnswersAreKept(Apply(s, steps[0]), steps[1..], c);
    }
  }

  /** Who is answered what, and the rows written, by the key's binding and the call's columns. */
  lemma PutExactlyWhen(s: Store, call: Call)
    ensures var (t, r) := PutIfAbsent(s, call);
            var bound := call.scope in s.keys;
            && (r.Created? <==> !bound && call.acceptable)
            && (r == Rejected <==> !bound && !call.acceptable)
            && (r.Replayed? <==> bound && s.keys[call.scope].requestHash == call.requestHash)
            && (r == Conflict <==> bound && s.keys[call.scope].requestHash != call.requestHash)
            && (r.Replayed? ==> r.objectId == s.keys[call.scope].objectId)
            && (!r.Created? ==> t == s)
            && (r.Created? ==>
                  && r.objectId == call.newId
                  && t.keys == s.keys[call.scope := Entry(call.requestHash, call.newId)]
                  && t.objects == s.objects[call.newId := call.scope]
                  && t.companions == s.companions[call.newId := s.companions[call.newId] + 1])
    ensures call.scope in s.keys ==>
              (ReplayOf(s, s.keys[call.scope], call.requestHash) == ObjectMissing <==>
               s.keys[call.scope].requestHash == call.requestHash && s.keys[call.scope].objectId !in s.objects)
  {
  }

  // ---- what the sequential map promises ---------------------------------------------------------

  /** Keys are never rebound. */
  lemma {:induction false} BindingsAreKept(history: seq<(Call, Result)>, i: nat, k: Scope)
    requires i <= |history| && k in Sequential(history[..i]).keys
    ensures k in Sequential(history).keys && Sequential(history).keys[k] == Sequential(history[..i]).keys[k]
    decreases |history|
  {
    if i == |history| {
      assert history[..i] == history;
    } else {
      var most := history[..|history| - 1];
      assert most[..i] == history[..i];
      BindingsAreKept(most, i, k);
    }
  }

  /** What each answered call got, in terms of the final key table: the caller that created got its own
      object and is the one the key is bound to; a replay got the bound object and its hash is the bound
      one; a conflict means the hashes differ. So all callers of one key that succeed get one object. */
  lemma AnswersAgreeWithFinalTable(history: seq<(Call, Result)>, i: nat)
    requires Legal(history) && i < |history|
    ensures var (call, result) := history[i];
            var keys := Sequential(history).keys;
            match result
            case Created(objectId) =>
              call.scope in keys && keys[call.scope] == Entry(call.requestHash, objectId) && objectId == call.newId
            case Replayed(objectId) => call.scope in keys && keys[call.scope] == Entry(call.requestHash, objectId)
            case Conflict => call.scope in keys && keys[call.scope].requestHash != call.requestHash
            case _ => true
  {
    var (call, result) := history[i];
    var before := Sequential(history[..i]);
    assert history[..i + 1][..i] == history[..i];
    if result.Created? {
      assert call.scope in Sequential(history[..i + 1]).keys;
      BindingsAreKept(history, i + 1, call.scope);
    } else if result.Replayed? || result.Conflict? {
      assert call.scope in before.keys;
      BindingsAreKept(history, i, call.scope);
    }
  }

  /** No key is created twice. */
  lemma CreatedOnce(history: seq<(Call, Result)>, i: nat, j: nat)
    requires Legal(history) && i < j < |history|
    requires history[i].1.Created? && history[j].1.Created?
    ensures history[i].0.scope != history[j].0.scope
  {
    var scope := history[i].0.scope;
    assert history[..i + 1][..i] == history[..i];
    assert scope in Sequential(history[..i + 1]).keys;
    assert history[..j][..i + 1] == history[..i + 1];
    BindingsAreKept(history[..j], i + 1, scope);
  }

  /** Whatever the interleaving, a client that returned got the one object its key is bound to exactly
      when its request hash is the bound one; otherwise a conflict. A bound object is never missing. */
  lemma ClientsGetTheWinner(steps: seq<Step>, c: int)
    requires c in Run(START, steps).clients && Run(START, steps).clients[c].phase.Returned?
    ensures var s := Run(START, steps);
            var call, result := s.clients[c].call, s.clients[c].phase.result;
            && result != ObjectMissing
            && (result == Rejected ==> !call.acceptable)
            && (result != Rejected && result != Failed ==>
                  && call.scope in s.store.keys
                  && (var bound := s.store.keys[call.scope];
                      && bound.objectId in s.store.objects && s.store.objects[bound.objectId] == call.scope
                      && s.store.companions[bound.objectId] == 1
                      && if bound.requestHash == call.requestHash
                         then result == Created(bound.objectId) || result == Replayed(bound.objectId)
                         else result == Conflict))
  {
    RunKeepsSafe(START, steps);
    var s := Run(START, steps);
    var i :| 0 <= i < |s.history| && s.history[i] == (s.clients[c].call, s.clients[c].phase.result);
    AnswersAgreeWithFinalTable(s.history, i);
  }
}
