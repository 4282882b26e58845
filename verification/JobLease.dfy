/** What the lease adds when every worker is killed before its lease can expire, and what goes wrong
    exactly when the settings allow a worker to outlive it. */
module JobLease {
  import opened Common
  import opened JobRows
  import opened JobProtocol
  import opened JobSafety

  predicate LeaseOutlivesWorker(cfg: Settings) {
    cfg.hardLimitSeconds < cfg.leaseSeconds
  }

  predicate DeadlinesMatch(cfg: Settings, s: State, c: int)
    requires c in s.copies
  {
    match s.copies[c].phase
    case Started(deadline) => deadline <= s.now + cfg.hardLimitSeconds * SECOND
    case ClockRead(deadline, read) => read <= s.now && deadline <= read + cfg.hardLimitSeconds * SECOND
    case _ => true
  }

  /** A live worker is the one the job row names, and dies before the lease ends. */
  predicate Owns(s: State, c: int) {
    && Executes(s, c)
    && s.job.status == Running
    && AttemptOf(s, c) == s.job.attempts
    && s.job.lease.Some? && s.copies[c].phase.deadline < s.job.lease.value
  }

  predicate RowConsistent(job: Job) {
    && (job.lease.Some? <==> job.status == Running)
    && (job.completedAt.Some? <==> Terminal(job.status))
    && (job.result.Some? <==> job.status == Succeeded)
    && (job.error.Some? <==> job.status == Retrying || job.status == Failed)
    && (job.status == Retrying ==> 0 < job.attempts < job.maxAttempts)
  }

  ghost predicate Fenced(cfg: Settings, s: State) {
    && (forall c :: c in s.copies ==> DeadlinesMatch(cfg, s, c))
    && (forall c :: Alive(s, c) ==> Owns(s, c))
    && RowConsistent(s.job)
  }

  lemma ClaimKeepsFenced(cfg: Settings, s: State, c: int)
    requires LeaseOutlivesWorker(cfg) && Safe(s) && Fenced(cfg, s)
    requires c in s.copies && s.copies[c].phase.ClockRead?
    ensures Fenced(cfg, ClaimStep(cfg, s, c))
    ensures Terminal(s.job.status) ==> ClaimStep(cfg, s, c).job == s.job
  {
    var t := ClaimStep(cfg, s, c);
    var read := s.copies[c].phase.read;
    assert DeadlinesMatch(cfg, s, c);
    assert forall d :: d != c && d in s.copies ==> d in t.copies && t.copies[d] == s.copies[d];
    if t.job != s.job {
      // The row was free, or its lease had run out: its worker is dead.
      forall d ensures !Alive(s, d) {
        assert Alive(s, d) ==> Owns(s, d);
      }
    }
    forall d | d in t.copies ensures DeadlinesMatch(cfg, t, d) {
      assert d in s.copies && DeadlinesMatch(cfg, s, d);
    }
    forall d | Alive(t, d) ensures Owns(t, d) {
      if d != c {
        assert Alive(s, d);
      }
    }
  }

  /** A worker commits the job row only in its last step, and only to a consistent row. */
  lemma WorkerStepRow(cfg: Settings, s: State, c: int, step: Step)
    requires Owns(s, c) && RowConsistent(s.job) && 1 <= s.job.attempts <= s.job.maxAttempts
    ensures var p := s.copies[c].phase;
            var t := WorkerStep(cfg, s, c, p.deadline, p.attempt, p.stage, step);
            && RowConsistent(t.job)
            && (Executes(t, c) ==> t.job == s.job)
            && (c in t.copies ==> t.copies[c].phase.Executing? || t.copies[c].phase.Queued? || t.copies[c].phase.Gone?)
  {
  }

  lemma WorkerStepKeepsFenced(cfg: Settings, s: State, c: int, step: Step)
    requires Fenced(cfg, s) && AttemptsMatch(s) && Alive(s, c)
    ensures var t := WorkerStep(cfg, s, c, s.copies[c].phase.deadline, AttemptOf(s, c), StageOf(s, c), step);
            Fenced(cfg, t) && !Terminal(s.job.status)
  {
    hide WorkerStep, RowConsistent, DeadlinesMatch;
    var p := s.copies[c].phase;
    var t := WorkerStep(cfg, s, c, p.deadline, p.attempt, p.stage, step);
    assert Owns(s, c);
    WorkerStepRow(cfg, s, c, step);
    WorkerStepFrame(cfg, s, c, p.deadline, p.attempt, p.stage, step);
    WorkerKeepsNumber(cfg, s, c, step);
    forall d | d != c ensures !Alive(s, d) {
      assert Alive(s, d) ==> Owns(s, d);
    }
    forall d | Alive(t, d) ensures Owns(t, d) {
      assert d in t.copies.Keys;
      assert d != c ==> Alive(s, d);
    }
    forall d | d in t.copies ensures DeadlinesMatch(cfg, t, d) {
      assert d in t.copies.Keys && DeadlinesMatch(cfg, s, d);
      DeadlineStays(cfg, s, t, d);
    }
  }

  lemma DeadlineStays(cfg: Settings, s: State, t: State, d: int)
    requires d in s.copies && d in t.copies && t.now == s.now && DeadlinesMatch(cfg, s, d)
    requires t.copies[d] == s.copies[d] || t.copies[d].phase.Executing? || t.copies[d].phase.Queued?
             || t.copies[d].phase.Gone?
    ensures DeadlinesMatch(cfg, t, d)
  {
  }

  lemma OutsideKeepsFenced(cfg: Settings, s: State, t: State)
    requires Fenced(cfg, s) && RowsKept(cfg, s, t)
    ensures Fenced(cfg, t)
  {
    forall d | d in t.copies ensures DeadlinesMatch(cfg, t, d) {
      if d in s.copies {
        assert DeadlinesMatch(cfg, s, d);
      }
    }
    forall d | Alive(t, d) ensures Owns(t, d) {
      assert Alive(s, d) && t.copies[d] == s.copies[d];
    }
  }

  /** Every step keeps the fence, and none changes a finished row. */
  lemma StepKeepsFenced(cfg: Settings, s: State, step: Step)
    requires LeaseOutlivesWorker(cfg) && Safe(s) && Fenced(cfg, s)
    ensures Fenced(cfg, Apply(cfg, s, step))
    ensures Terminal(s.job.status) ==> Apply(cfg, s, step).job == s.job
  {
    KindsOfStep(cfg, s, step);
    if WorkerTurn(s, step) {
      WorkerStepKeepsFenced(cfg, s, step.c, step);
    } else if ClaimTurn(s, step) {
      ClaimKeepsFenced(cfg, s, step.c);
    } else {
      OutsideKeepsFenced(cfg, s, Apply(cfg, s, step));
    }
  }

  lemma {:induction false} RunKeepsFenced(cfg: Settings, s: State, steps: seq<Step>)
    requires LeaseOutlivesWorker(cfg) && Safe(s) && Fenced(cfg, s)
    ensures Safe(Run(cfg, s, steps)) && Fenced(cfg, Run(cfg, s, steps))
    ensures Terminal(s.job.status) ==> Run(cfg, s, steps).job == s.job
    decreases |steps|
  {
    if steps != [] {
      StepKeepsSafe(cfg, s, steps[0]);
      StepKeepsFenced(cfg, s, steps[0]);
      RunKeepsFenced(cfg, Apply(cfg, s, steps[0]), steps[1..]);
    }
  }

  /** With the lease longer than the time limit, in every reachable state the row's columns agree with
      its status, at most one live worker executes the job, and it is the one the row names. */
  lemma LeaseGivesOneOwner(cfg: Settings, now: int, kind: JobKind, payloadOk: bool, maxAttempts: nat, steps: seq<Step>)
    requires LeaseOutlivesWorker(cfg)
    ensures var s := Reached(cfg, now, kind, payloadOk, maxAttempts, steps);
            && RowConsistent(s.job)
            && (forall c :: Alive(s, c) ==> Owns(s, c))
            && (forall c, d :: Alive(s, c) && Alive(s, d) ==> c == d)
  {
    var s0 := Init(now, kind, payloadOk, maxAttempts);
    RunKeepsFenced(cfg, s0, steps);
    var s := Run(cfg, s0, steps);
    forall c, d | Alive(s, c) && Alive(s, d) ensures c == d {
      assert Owns(s, c) && Owns(s, d);
    }
  }

  /** A finished row never changes again, in any continuation of any run. */
  ghost predicate FinishedStaysFinished(cfg: Settings, maxAttempts: nat) {
    forall now, kind, payloadOk, steps, more ::
      var s := Reached(cfg, now, kind, payloadOk, maxAttempts, steps);
      Terminal(s.job.status) ==> Run(cfg, s, more).job == s.job
  }

  /** A run in which a worker outlives its lease: worker 0 claims, its lease runs out while it lives,
      worker 1 claims and finishes the job, or finds the attempts used up. */
  function FirstClaims(): seq<Step> {
    [Deliver(0), Deliver(1), Start(0), ReadClock(0), Claim(0)]
  }

  function SecondFinishes(cfg: Settings): seq<Step> {
    [Tick(cfg.leaseSeconds * SECOND), Start(1), ReadClock(1), Claim(1), Export(1, Written(7))]
  }

  function RunningRow(cfg: Settings, maxAttempts: nat): Job {
    Job(TicketExport, true, Running, 1, maxAttempts, Some(0), Some(cfg.leaseSeconds * SECOND), None, None, None)
  }

  function FirstWorker(cfg: Settings): Copy {
    Copy(Executing(cfg.hardLimitSeconds * SECOND, 1, Claimed), 0, 0, 0, 1)
  }

  lemma RunFrom(cfg: Settings, s: State, steps: seq<Step>, k: nat)
    requires k < |steps|
    ensures Run(cfg, s, steps[k..]) == Run(cfg, Apply(cfg, s, steps[k]), steps[k + 1..])
  {
  }

  lemma Run5(cfg: Settings, s: State, steps: seq<Step>)
    requires |steps| == 5
    ensures var s2 := Apply(cfg, Apply(cfg, s, steps[0]), steps[1]);
            Run(cfg, s, steps) == Apply(cfg, Apply(cfg, Apply(cfg, s2, steps[2]), steps[3]), steps[4])
  {
    var s1 := Apply(cfg, s, steps[0]);
    var s2 := Apply(cfg, s1, steps[1]);
    var s3 := Apply(cfg, s2, steps[2]);
    assert steps[0..] == steps;
    RunFrom(cfg, s, steps, 0);
    RunFrom(cfg, s1, steps, 1);
    RunFrom(cfg, s2, steps, 2);
    RunFrom(cfg, s3, steps, 3);
    RunFrom(cfg, Apply(cfg, s3, steps[3]), steps, 4);
  }

  lemma FirstClaimsState(cfg: Settings, maxAttempts: nat)
    requires maxAttempts >= 1
    ensures Reached(cfg, 0, TicketExport, true, maxAttempts, FirstClaims())
         == State(0, RunningRow(cfg, maxAttempts), None,
                  map[0 := FirstWorker(cfg), 1 := Copy(Queued(0), 0, 0, 0, 0)], [], {})
  {
  }

  /** The second worker has read the clock as the first lease runs out. */
  lemma SecondReadsClock(cfg: Settings, s: State)
    requires s.now == 0 && 0 in s.copies && s.copies[0] == FirstWorker(cfg) && 1 in s.copies
             && s.copies[1].phase == Queued(0)
    ensures var now, steps := cfg.leaseSeconds * SECOND, SecondFinishes(cfg);
            var t := Apply(cfg, Apply(cfg, Apply(cfg, s, steps[0]), steps[1]), steps[2]);
            && t == s.(now := now, copies := t.copies)
            && 0 in t.copies && t.copies[0] == FirstWorker(cfg)
            && 1 in t.copies && t.copies[1].phase == ClockRead(now + cfg.hardLimitSeconds * SECOND, now)
  {
  }

  /** It claims and exports, or finds the attempts used up; either way the row is finished. */
  lemma SecondClaims(cfg: Settings, s: State, maxAttempts: nat)
    requires maxAttempts >= 1 && s.job == RunningRow(cfg, maxAttempts) && s.now == cfg.leaseSeconds * SECOND
    requires 0 in s.copies && s.copies[0] == FirstWorker(cfg)
    requires 1 in s.copies && s.copies[1].phase == ClockRead(s.now + cfg.hardLimitSeconds * SECOND, s.now)
    ensures var t := Apply(cfg, Apply(cfg, s, Claim(1)), Export(1, Written(7)));
            && Terminal(t.job.status) && t.job.kind == TicketExport && t.now == s.now
            && t.job.result != Some(ExportFile(8))
            && 0 in t.copies && t.copies[0] == FirstWorker(cfg)
  {
  }

  lemma SecondFinishesState(cfg: Settings, s: State, maxAttempts: nat)
    requires maxAttempts >= 1
    requires s == State(0, RunningRow(cfg, maxAttempts), None,
                        map[0 := FirstWorker(cfg), 1 := Copy(Queued(0), 0, 0, 0, 0)], [], {})
    ensures var t := Run(cfg, s, SecondFinishes(cfg));
            && Terminal(t.job.status) && t.job.kind == TicketExport && t.now == cfg.leaseSeconds * SECOND
            && 0 in t.copies && t.copies[0] == FirstWorker(cfg)
            && t.job.result != Some(ExportFile(8))
  {
    var steps := SecondFinishes(cfg);
    SecondReadsClock(cfg, s);
    hide Apply;
    var read := Apply(cfg, Apply(cfg, Apply(cfg, s, steps[0]), steps[1]), steps[2]);
    SecondClaims(cfg, read, maxAttempts);
    Run5(cfg, s, steps);
  }

  lemma LateWorkerRewrites(cfg: Settings, s: State)
    requires !LeaseOutlivesWorker(cfg) && s.job.kind == TicketExport && s.now == cfg.leaseSeconds * SECOND
    requires 0 in s.copies && s.copies[0] == FirstWorker(cfg)
    ensures Run(cfg, s, [Export(0, Written(8))]).job.result == Some(ExportFile(8))
  {
    assert [Export(0, Written(8))][1..] == [];
  }

  lemma OverlapRewritesFinishedRow(cfg: Settings, maxAttempts: nat)
    requires maxAttempts >= 1 && !LeaseOutlivesWorker(cfg)
    ensures !FinishedStaysFinished(cfg, maxAttempts)
  {
    var s0 := Init(0, TicketExport, true, maxAttempts);
    var steps := FirstClaims() + SecondFinishes(cfg);
    FirstClaimsState(cfg, maxAttempts);
    SecondFinishesState(cfg, Run(cfg, s0, FirstClaims()), maxAttempts);
    RunAppend(cfg, s0, FirstClaims(), SecondFinishes(cfg));
    LateWorkerRewrites(cfg, Reached(cfg, 0, TicketExport, true, maxAttempts, steps));
  }

  /** Finished rows are final in every run if and only if the time limit is below the lease. */
  lemma FinishedIsFinalIffLeaseOutlivesWorker(cfg: Settings, maxAttempts: nat)
    requires maxAttempts >= 1
    ensures FinishedStaysFinished(cfg, maxAttempts) <==> LeaseOutlivesWorker(cfg)
  {
    if LeaseOutlivesWorker(cfg) {
      forall now, kind, payloadOk, steps, more
        ensures var s := Reached(cfg, now, kind, payloadOk, maxAttempts, steps);
                Terminal(s.job.status) ==> Run(cfg, s, more).job == s.job
      {
        var s0 := Init(now, kind, payloadOk, maxAttempts);
        RunKeepsFenced(cfg, s0, steps);
        RunKeepsFenced(cfg, Run(cfg, s0, steps), more);
      }
    } else {
      OverlapRewritesFinishedRow(cfg, maxAttempts);
    }
  }
}
