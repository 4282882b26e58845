/** What a whole dispatcher run does to the rows: one that nothing interrupts commits exactly what the loop
    says, and a row whose publish failed is left in peace until its back-off is over. */
module OutboxRuns {
  import opened Common
  import opened Outbox
  import opened OutboxProtocol

  // ---- a run that nothing interrupts -----------------------------------------------------------------

  function Publishes(run: int, batch: seq<int>, outcome: int -> PublishOutcome): seq<Step> {
    if batch == [] then [] else [Publish(run, outcome(batch[0]), false)] + Publishes(run, batch[1..], outcome)
  }

  /** The jobs whose message the broker accepted. */
  function AcceptedJobs(table: Table, batch: seq<int>, outcome: int -> PublishOutcome): multiset<int>
    requires forall i :: 0 <= i < |batch| ==> batch[i] in table
  {
    if batch == [] then multiset{}
    else
      (if outcome(batch[0]).Accepted? then multiset{table[batch[0]].jobId} else multiset{})
      + AcceptedJobs(table, batch[1..], outcome)
  }

  function Tried(table: Table, batch: seq<int>, outcome: int -> PublishOutcome, now: int, cfg: Settings): Table {
    map id | id in table && id in batch :: AfterPublish(table[id], outcome(id), now, cfg)
  }

  lemma OnePublish(cfg: Settings, s: State, run: int, outcome: PublishOutcome)
    requires run in s.runs && s.runs[run].todo != [] && s.runs[run].todo[0] in s.table
    ensures var d, id := s.runs[run], s.runs[run].todo[0];
            var t := Apply(cfg, s, Publish(run, outcome, false));
            && t == s.(runs := t.runs, broker := t.broker)
            && t.broker == s.broker + (if outcome.Accepted? then multiset{s.table[id].jobId} else multiset{})
            && t.runs.Keys == s.runs.Keys && (forall r | r in s.runs && r != run :: t.runs[r] == s.runs[r])
            && t.runs[run].now == d.now && t.runs[run].todo == d.todo[1..]
            && t.runs[run].tried == d.tried[id := AfterPublish(s.table[id], outcome, d.now, cfg)]
  {
  }

  lemma {:induction false} PublishAll(cfg: Settings, s: State, run: int, outcome: int -> PublishOutcome)
    requires run in s.runs && NoDuplicates(s.runs[run].todo)
    requires forall i :: 0 <= i < |s.runs[run].todo| ==> s.runs[run].todo[i] in s.table
    ensures var d := s.runs[run];
            var t := Run(cfg, s, Publishes(run, d.todo, outcome));
            && t == s.(runs := t.runs, broker := t.broker)
            && t.broker == s.broker + AcceptedJobs(s.table, d.todo, outcome)
            && t.runs.Keys == s.runs.Keys && (forall r | r in s.runs && r != run :: t.runs[r] == s.runs[r])
            && t.runs[run].todo == [] && t.runs[run].tried == d.tried + Tried(s.table, d.todo, outcome, d.now, cfg)
    decreases |s.runs[run].todo|
  {
    var d := s.runs[run];
    if d.todo != [] {
      var first := Publish(run, outcome(d.todo[0]), false);
      var t := Apply(cfg, s, first);
      OnePublish(cfg, s, run, outcome(d.todo[0]));
      PublishAll(cfg, t, run, outcome);
      assert ([first] + Publishes(run, d.todo[1..], outcome))[1..] == Publishes(run, d.todo[1..], outcome);
      TriedOneMore(s.table, d.tried, d.todo, outcome, d.now, cfg);
    }
  }

  lemma TriedOneMore(table: Table, tried: Table, batch: seq<int>, outcome: int -> PublishOutcome, now: int,
                     cfg: Settings)
    requires batch != [] && NoDuplicates(batch) && batch[0] in table
    ensures tried[batch[0] := AfterPublish(table[batch[0]], outcome(batch[0]), now, cfg)]
            + Tried(table, batch[1..], outcome, now, cfg)
         == tried + Tried(table, batch, outcome, now, cfg)
  {
    hide AfterPublish;
    assert forall id :: id in batch <==> id == batch[0] || id in batch[1..];
    assert batch[0] !in batch[1..];
  }

  function RunSteps(run: int, now: int, batch: seq<int>, outcome: int -> PublishOutcome): seq<Step> {
    [Begin(run, now)] + (Publishes(run, batch, outcome) + [Commit(run)])
  }

  lemma {:induction false} RunAppend(cfg: Settings, s: State, a: seq<Step>, b: seq<Step>)
    ensures Run(cfg, s, a + b) == Run(cfg, Run(cfg, s, a), b)
    decreases |a|
  {
    if a == [] {
      assert a + b == b;
    } else {
      assert (a + b)[1..] == a[1..] + b;
      RunAppend(cfg, Apply(cfg, s, a[0]), a[1..], b);
    }
  }

  lemma FirstThen(cfg: Settings, s: State, a: Step, more: seq<Step>)
    ensures Run(cfg, s, [a] + more) == Run(cfg, Apply(cfg, s, a), more)
  {
    assert ([a] + more)[1..] == more;
  }

  lemma LastStep(cfg: Settings, s: State, a: Step)
    ensures Run(cfg, s, [a]) == Apply(cfg, s, a)
  {
    assert [a][1..] == [];
  }

  lemma BatchIsInTable(table: Table, locked: set<int>, now: int, limit: nat)
    ensures var batch := ListPending(table, locked, now, limit);
            NoDuplicates(batch) && forall i :: 0 <= i < |batch| ==> batch[i] in table
  {
    hide ListPending, NoDuplicates;
    BatchIsDue(table, locked, now, limit);
    var batch := ListPending(table, locked, now, limit);
    forall i | 0 <= i < |batch| ensures batch[i] in table {
      assert batch[i] in batch;
    }
  }

  /** A dispatcher run nothing interrupts, among any others in progress, takes the oldest due rows no other
      run holds and leaves the rows as `DispatchOnce` does, with one copy at the broker per accepted row. */
  lemma UndisturbedRunIsDispatchOnce(cfg: Settings, s: State, run: int, now: int, outcome: int -> PublishOutcome)
    requires run !in s.runs
    ensures var batch := ListPending(s.table, Locked(s), now, cfg.batchSize);
            var t := Run(cfg, s, RunSteps(run, now, batch, outcome));
            && (forall i :: 0 <= i < |batch| ==> batch[i] in s.table)
            && t.table == AfterBatch(s.table, batch, outcome, now, cfg)
            && t.broker == s.broker + AcceptedJobs(s.table, batch, outcome)
            && t.runs == s.runs && t.jobs == s.jobs && t.wasted == s.wasted
  {
    var batch := ListPending(s.table, Locked(s), now, cfg.batchSize);
    hide ListPending, Publishes, AfterPublish, Run, Locked, AfterBatch, Tried, AcceptedJobs, NoDuplicates;
    BatchIsInTable(s.table, Locked(s), now, cfg.batchSize);
    var begun := Apply(cfg, s, Begin(run, now));
    FirstThen(cfg, s, Begin(run, now), Publishes(run, batch, outcome) + [Commit(run)]);
    RunAppend(cfg, begun, Publishes(run, batch, outcome), [Commit(run)]);
    PublishAll(cfg, begun, run, outcome);
    var done := Run(cfg, begun, Publishes(run, batch, outcome));
    LastStep(cfg, done, Commit(run));
    AllTried(s.table, batch, outcome, now, cfg);
    OthersRemain(s.runs, begun.runs, done.runs, run);
  }

  lemma OthersRemain(before: Runs, begun: Runs, done: Runs, run: int)
    requires run !in before && run in begun && begun == before[run := begun[run]] && done.Keys == begun.Keys
    requires forall r | r in begun && r != run :: done[r] == begun[r]
    ensures done - {run} == before
  {
    var back := done - {run};
    forall r ensures r in back <==> r in before {
      assert r in done <==> r in done.Keys;
      assert r in begun <==> r in begun.Keys;
    }
    assert back.Keys == before.Keys;
    assert forall r | r in before :: back[r] == before[r];
  }

  lemma AllTried(table: Table, batch: seq<int>, outcome: int -> PublishOutcome, now: int, cfg: Settings)
    requires forall i :: 0 <= i < |batch| ==> batch[i] in table
    ensures table + (map[] + Tried(table, batch, outcome, now, cfg)) == AfterBatch(table, batch, outcome, now, cfg)
  {
    hide AfterPublish;
  }

  /** Submissions come at any moment with ids of their own, and any run may die: what it tried is forgotten,
      what the broker has stays there. A publish that raises may still have arrived. */
  lemma AnythingMayHappen(cfg: Settings, s: State, run: int, job: int, message: int, at: int, error: string)
    ensures job !in s.jobs && message !in s.table ==>
              Apply(cfg, s, Submit(job, message, at))
              == s.(jobs := s.jobs + {job}, table := s.table[message := Message(job, at, Pending, 0, at, None, None)])
    ensures run in s.runs ==>
              && Apply(cfg, s, Die(run)).table == s.table && Apply(cfg, s, Die(run)).broker == s.broker
              && Apply(cfg, s, Die(run)).runs == s.runs - {run}
    ensures run in s.runs && s.runs[run].todo != [] && s.runs[run].todo[0] in s.table ==>
              Apply(cfg, s, Publish(run, Raised(error), true)).broker
              == s.broker + multiset{s.table[s.runs[run].todo[0]].jobId}
  {
  }

  // ---- back-off ------------------------------------------------------------------------------------

  /** Every run begun by these steps reads the clock before `until`. */
  predicate BegunBefore(steps: seq<Step>, until: int) {
    forall i :: 0 <= i < |steps| && steps[i].Begin? ==> steps[i].now < until
  }

  predicate Waits(s: State, id: int, until: int) {
    && id in s.table && until <= s.table[id].availableAt
    && forall r :: r in s.runs ==> id !in s.runs[r].todo && id !in s.runs[r].tried
  }

  lemma StepLetsWait(cfg: Settings, s: State, step: Step, id: int, until: int)
    requires Waits(s, id, until) && (step.Begin? ==> step.now < until)
    ensures Waits(Apply(cfg, s, step), id, until) && Apply(cfg, s, step).table[id] == s.table[id]
  {
    if step.Begin? && step.run !in s.runs {
      BatchIsDue(s.table, Locked(s), step.now, cfg.batchSize);
      hide ListPending;
    }
  }

  lemma {:induction false} RunLetsWait(cfg: Settings, s: State, steps: seq<Step>, id: int, until: int)
    requires Waits(s, id, until) && BegunBefore(steps, until)
    ensures Waits(Run(cfg, s, steps), id, until) && Run(cfg, s, steps).table[id] == s.table[id]
    decreases |steps|
  {
    hide Apply, Waits;
    if steps != [] {
      StepLetsWait(cfg, s, steps[0], id, until);
      RunLetsWait(cfg, Apply(cfg, s, steps[0]), steps[1..], id, until);
    }
  }

  /** A row whose publish failed at `d.now` is in no batch of any run that begins before the base delay has
      passed, whatever is submitted, published, committed or dies in between; and it stays as it is. */
  lemma FailedRowIsLeftInPeace(cfg: Settings, s: State, run: int, id: int, error: string, steps: seq<Step>)
    requires Safe(s) && run in s.runs && s.runs[run].todo == [] && id in s.runs[run].tried && id in s.table
    requires cfg.retryBase <= cfg.retryMax
    requires s.runs[run].tried[id] == AfterPublish(s.table[id], Raised(error), s.runs[run].now, cfg)
    requires BegunBefore(steps, s.runs[run].now + cfg.retryBase * SECOND)
    ensures var t := Run(cfg, Apply(cfg, s, Commit(run)), steps);
            && id in t.table && t.table[id] == s.runs[run].tried[id]
            && forall r :: r in t.runs ==> id !in t.runs[r].todo && id !in t.runs[r].tried
  {
    var until := s.runs[run].now + cfg.retryBase * SECOND;
    var committed := Apply(cfg, s, Commit(run));
    FailedPublishBacksOff(s.table[id], error, s.runs[run].now, cfg);
    forall r | r in s.runs && r != run ensures id !in s.runs[r].todo && id !in s.runs[r].tried {
      assert Disjoint(s.runs, run, r);
    }
    RunLetsWait(cfg, committed, steps, id, until);
  }
}
