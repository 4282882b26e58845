/** How often one broker copy can come back. A copy is put back by a lease it ran into or by a retryable
    failure of its own execution. Neither can go on for ever, whatever other workers do. */
module JobChains {
  import opened Common
  import opened JobRows
  import opened JobProtocol
  import opened JobSafety

  /** If the lease that last deferred the copy still stands, the copy is past it. */
  predicate PastLease(s: State, k: Copy) {
    k.lastBounced == s.job.attempts && s.job.lease.Some? ==>
      match k.phase
      case Queued(notBefore) => s.job.lease.value < notBefore
      case Started(_) => s.job.lease.value < s.now
      case ClockRead(_, read) => s.job.lease.value < read
      case _ => true
  }

  function Returns(k: Copy): nat {
    k.bounces + k.retries
  }

  /** Each return is charged to an attempt number of its own: a deferral to the attempt whose lease it met,
      a retry to the attempt the copy owned. The copy's latest number is still free while it executes, and
      as long as the lease of an attempt it owned, and was not deferred by, still stands. */
  predicate CopyMatches(s: State, k: Copy) {
    && k.lastBounced <= s.job.attempts && k.lastClaimed <= s.job.attempts
    && k.bounces <= k.lastBounced && k.retries <= k.lastClaimed
    && Returns(k) <= Max(k.lastBounced, k.lastClaimed)
    && (s.job.lease.Some? && k.lastBounced < k.lastClaimed == s.job.attempts ==> Returns(k) < k.lastClaimed)
    && (k.phase.ClockRead? ==> k.phase.read <= s.now)
    && (k.phase.Executing? ==>
          k.phase.attempt == k.lastClaimed && k.lastBounced < k.lastClaimed && Returns(k) < k.lastClaimed)
    && PastLease(s, k)
  }

  ghost predicate Chained(s: State) {
    && s.job.attempts <= s.job.maxAttempts
    && (s.job.lease.Some? ==> s.job.attempts > 0)
    && forall c :: c in s.copies ==> CopyMatches(s, s.copies[c])
  }

  predicate MeetsLease(cfg: Settings, s: State, step: Step, c: int) {
    ClaimTurn(s, step) && step.c == c && ClaimRow(Some(s.job), s.copies[c].phase.read, cfg).LeaseActive?
  }

  predicate Retries(s: State, step: Step, c: int) {
    WorkerTurn(s, step) && step == RecordRetry(c) && s.copies[c].phase.stage == Erring
    && s.copies[c].phase.attempt < s.job.maxAttempts
  }

  lemma WorkerReturnsCounted(cfg: Settings, s: State, step: Step, c: int)
    requires WorkerTurn(s, step) && c in s.copies
    ensures var p := s.copies[step.c].phase;
            var t := WorkerStep(cfg, s, step.c, p.deadline, p.attempt, p.stage, step);
            && c in t.copies && t.copies[c].bounces == s.copies[c].bounces
            && t.copies[c].retries == s.copies[c].retries + (if Retries(s, step, c) then 1 else 0)
            && (t.copies[c].phase.Queued? && !s.copies[c].phase.Queued? ==> Retries(s, step, c))
  {
  }

  lemma ClaimReturnsCounted(cfg: Settings, s: State, step: Step, c: int)
    requires ClaimTurn(s, step) && c in s.copies
    ensures var t := ClaimStep(cfg, s, step.c);
            && c in t.copies && t.copies[c].retries == s.copies[c].retries
            && t.copies[c].bounces == s.copies[c].bounces + (if MeetsLease(cfg, s, step, c) then 1 else 0)
            && (t.copies[c].phase.Queued? && !s.copies[c].phase.Queued? ==> MeetsLease(cfg, s, step, c))
  {
  }

  lemma OthersAreNotReturned(cfg: Settings, s: State, step: Step, c: int)
    requires !WorkerTurn(s, step) && !ClaimTurn(s, step) && c in s.copies
    ensures var t := Apply(cfg, s, step);
            && c in t.copies && t.copies[c].bounces == s.copies[c].bounces && t.copies[c].retries == s.copies[c].retries
            && (t.copies[c].phase.Queued? && !s.copies[c].phase.Queued? ==>
                  step.Crash? && step.c == c && step.redelivered)
  {
  }

  /** What is counted: a step adds one to a copy's returns exactly if it is that copy's claim that meets a lease, or
      its worker's retry with attempts left; and only those put a copy back, other than a death. */
  lemma EveryReturnIsCounted(cfg: Settings, s: State, step: Step, c: int)
    requires c in s.copies
    ensures var t := Apply(cfg, s, step);
            && c in t.copies
            && t.copies[c].bounces == s.copies[c].bounces + (if MeetsLease(cfg, s, step, c) then 1 else 0)
            && t.copies[c].retries == s.copies[c].retries + (if Retries(s, step, c) then 1 else 0)
            && (t.copies[c].phase.Queued? && !s.copies[c].phase.Queued? ==>
                  || MeetsLease(cfg, s, step, c) || Retries(s, step, c)
                  || (step.Crash? && step.c == c && step.redelivered))
  {
    hide Apply, WorkerStep, ClaimStep, ClaimRow, RowsKept;
    KindsOfStep(cfg, s, step);
    if WorkerTurn(s, step) {
      WorkerReturnsCounted(cfg, s, step, c);
    } else if ClaimTurn(s, step) {
      ClaimReturnsCounted(cfg, s, step, c);
    } else {
      OthersAreNotReturned(cfg, s, step, c);
    }
  }

  lemma ClaimMatchesOwn(cfg: Settings, s: State, c: int)
    requires c in s.copies && s.copies[c].phase.ClockRead? && CopyMatches(s, s.copies[c])
    requires s.job.attempts <= s.job.maxAttempts && (s.job.lease.Some? ==> s.job.attempts > 0)
    ensures var t := ClaimStep(cfg, s, c); c in t.copies && CopyMatches(t, t.copies[c])
    ensures ClaimRow(Some(s.job), s.copies[c].phase.read, cfg).LeaseActive? ==>
              s.copies[c].lastBounced < ClaimStep(cfg, s, c).copies[c].lastBounced
  {
    hide RetryAfter;
    if ClaimRow(Some(s.job), s.copies[c].phase.read, cfg).LeaseActive? {
      RetryAfterOutlastsLease(s.job.lease.value - s.copies[c].phase.read);
    }
  }

  lemma ClaimMatchesOther(cfg: Settings, s: State, c: int, d: int)
    requires c in s.copies && s.copies[c].phase.ClockRead? && d in s.copies && d != c && CopyMatches(s, s.copies[d])
    ensures var t := ClaimStep(cfg, s, c); d in t.copies && CopyMatches(t, t.copies[d])
  {
  }

  lemma ClaimFrame(cfg: Settings, s: State, c: int)
    requires c in s.copies && s.copies[c].phase.ClockRead?
    requires s.job.attempts <= s.job.maxAttempts && (s.job.lease.Some? ==> s.job.attempts > 0)
    ensures var t := ClaimStep(cfg, s, c);
            && t.copies.Keys == s.copies.Keys && t.job.attempts <= t.job.maxAttempts == s.job.maxAttempts
            && (t.job.lease.Some? ==> t.job.attempts > 0)
  {
  }

  /** A copy that runs into a lease has never been deferred by that lease before: its counter of
      deferrals grows together with the attempt number it is charged to. */
  lemma ClaimKeepsChained(cfg: Settings, s: State, c: int)
    requires Chained(s) && c in s.copies && s.copies[c].phase.ClockRead?
    ensures Chained(ClaimStep(cfg, s, c))
    ensures ClaimRow(Some(s.job), s.copies[c].phase.read, cfg).LeaseActive? ==>
              s.copies[c].lastBounced < ClaimStep(cfg, s, c).copies[c].lastBounced
  {
    hide ClaimStep, ClaimRow, CopyMatches;
    ClaimFrame(cfg, s, c);
    ClaimMatchesOwn(cfg, s, c);
    forall d | d in s.copies && d != c ensures CopyMatches(ClaimStep(cfg, s, c), ClaimStep(cfg, s, c).copies[d]) {
      ClaimMatchesOther(cfg, s, c, d);
    }
  }

  /** The copy moves on, or is put back by a failure of its own, which clears the lease. */
  lemma WorkerStepMovesCopy(cfg: Settings, s: State, c: int, step: Step)
    requires c in s.copies && s.copies[c].phase.Executing?
    ensures var k := s.copies[c];
            var t := WorkerStep(cfg, s, c, k.phase.deadline, k.phase.attempt, k.phase.stage, step);
            && c in t.copies
            && var u := t.copies[c];
            || (u == k.(phase := u.phase)
                && (u.phase.Gone? || (u.phase.Executing? && u.phase.attempt == k.phase.attempt)))
            || (u == k.(phase := u.phase, retries := k.retries + 1) && u.phase.Queued? && t.job.lease == None)
  {
  }

  lemma WorkerStepCopy(cfg: Settings, s: State, c: int, step: Step)
    requires c in s.copies && s.copies[c].phase.Executing? && CopyMatches(s, s.copies[c])
    ensures var p := s.copies[c].phase;
            var t := WorkerStep(cfg, s, c, p.deadline, p.attempt, p.stage, step);
            c in t.copies && CopyMatches(t, t.copies[c])
  {
    hide WorkerStep;
    var p := s.copies[c].phase;
    WorkerStepFrame(cfg, s, c, p.deadline, p.attempt, p.stage, step);
    WorkerStepMovesCopy(cfg, s, c, step);
  }

  /** Clearing a lease hurts no other copy. */
  lemma OtherStillMatches(s: State, t: State, k: Copy)
    requires CopyMatches(s, k) && t.now == s.now && t.job.attempts == s.job.attempts
    requires t.job.lease == s.job.lease || t.job.lease == None
    ensures CopyMatches(t, k)
  {
  }

  lemma WorkerStepKeepsChained(cfg: Settings, s: State, c: int, step: Step)
    requires Chained(s) && c in s.copies && s.copies[c].phase.Executing?
    ensures var p := s.copies[c].phase; Chained(WorkerStep(cfg, s, c, p.deadline, p.attempt, p.stage, step))
  {
    hide WorkerStep, CopyMatches;
    var p := s.copies[c].phase;
    var t := WorkerStep(cfg, s, c, p.deadline, p.attempt, p.stage, step);
    WorkerStepFrame(cfg, s, c, p.deadline, p.attempt, p.stage, step);
    WorkerStepCopy(cfg, s, c, step);
    forall d | d in s.copies && d != c ensures CopyMatches(t, t.copies[d]) {
      OtherStillMatches(s, t, s.copies[d]);
    }
  }

  lemma OutsideKeepsChained(cfg: Settings, s: State, t: State)
    requires Chained(s) && RowsKept(cfg, s, t)
    ensures Chained(t)
  {
  }

  lemma StepKeepsChained(cfg: Settings, s: State, step: Step)
    requires Chained(s)
    ensures Chained(Apply(cfg, s, step))
  {
    hide Apply, WorkerStep, ClaimStep, Chained, RowsKept;
    KindsOfStep(cfg, s, step);
    if WorkerTurn(s, step) {
      WorkerStepKeepsChained(cfg, s, step.c, step);
    } else if ClaimTurn(s, step) {
      ClaimKeepsChained(cfg, s, step.c);
    } else {
      OutsideKeepsChained(cfg, s, Apply(cfg, s, step));
    }
  }

  lemma {:induction false} RunKeepsChained(cfg: Settings, s: State, steps: seq<Step>)
    requires Chained(s)
    ensures Chained(Run(cfg, s, steps))
    decreases |steps|
  {
    hide Apply, Chained;
    if steps != [] {
      StepKeepsChained(cfg, s, steps[0]);
      RunKeepsChained(cfg, Apply(cfg, s, steps[0]), steps[1..]);
    }
  }

  /** In every run a copy is put back, by leases and by failures of its own together, at most as often as
      the job was attempted, hence at most as often as the attempt limit allows. */
  lemma RedeliveryIsBounded(cfg: Settings, now: int, kind: JobKind, payloadOk: bool, maxAttempts: nat,
                            steps: seq<Step>, c: int)
    requires c in Reached(cfg, now, kind, payloadOk, maxAttempts, steps).copies
    ensures var s := Reached(cfg, now, kind, payloadOk, maxAttempts, steps);
            var k := s.copies[c];
            k.bounces + k.retries <= s.job.attempts <= maxAttempts
  {
    var s0 := Init(now, kind, payloadOk, maxAttempts);
    RunKeepsChained(cfg, s0, steps);
    RunAdvancesRow(cfg, s0, steps);
    var s := Run(cfg, s0, steps);
    assert CopyMatches(s, s.copies[c]);
  }

  /** In every reachable state, a copy deferred by a lease waits until after that lease, by at most one
      second plus the time since it read the clock; its next claim cannot meet the same lease. */
  lemma NoCopyMeetsALeaseTwice(cfg: Settings, now: int, kind: JobKind, payloadOk: bool, maxAttempts: nat,
                               steps: seq<Step>, c: int)
    requires var s := Reached(cfg, now, kind, payloadOk, maxAttempts, steps);
             && c in s.copies && s.copies[c].phase.ClockRead?
             && ClaimRow(Some(s.job), s.copies[c].phase.read, cfg).LeaseActive?
    ensures var s := Reached(cfg, now, kind, payloadOk, maxAttempts, steps);
            var t := ClaimStep(cfg, s, c);
            && s.copies[c].lastBounced < s.job.attempts == t.copies[c].lastBounced
            && t.copies[c].phase.Queued?
            && s.job.lease.value < t.copies[c].phase.notBefore
            && t.copies[c].phase.notBefore <= s.job.lease.value + SECOND + (s.now - s.copies[c].phase.read)
  {
    var s0 := Init(now, kind, payloadOk, maxAttempts);
    RunKeepsChained(cfg, s0, steps);
    var s := Run(cfg, s0, steps);
    assert CopyMatches(s, s.copies[c]);
    ClaimKeepsChained(cfg, s, c);
    RetryAfterOutlastsLease(s.job.lease.value - s.copies[c].phase.read);
  }
}
