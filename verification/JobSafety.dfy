/** What the delivery guard gives, whatever the leases do: over every interleaving of workers, crashes,
    expired leases and duplicate copies, a mail whose outcome may already be out is never sent again.

    Nothing here compares a lease with a time limit. The argument rests on the locked delivery row
    and on its unique job id alone. */
module JobSafety {
  import opened Common
  import opened JobRows
  import opened JobProtocol

  predicate Executes(s: State, c: int) {
    c in s.copies && s.copies[c].phase.Executing?
  }

  /** A worker that executes and has not been killed. */
  predicate Alive(s: State, c: int) {
    Executes(s, c) && s.now <= s.copies[c].phase.deadline
  }

  function StageOf(s: State, c: int): Stage
    requires Executes(s, c)
  {
    s.copies[c].phase.stage
  }

  function AttemptOf(s: State, c: int): nat
    requires Executes(s, c)
  {
    s.copies[c].phase.attempt
  }

  /** Past the guard, and the outcome of the send not yet committed. */
  predicate Sending(stage: Stage) {
    stage.Guarded? || stage.InSend? || stage.SendRaised? || stage.SendReturned?
  }

  predicate BeforeGuard(stage: Stage) {
    stage.Claimed? || stage.NoRowSeen?
  }

  /** The index of the worker's own send call, and what it knows about that call. */
  predicate OwnsLastSend(sends: seq<SendOutcome>, stage: Stage) {
    match stage
    case InSend(i) => i + 1 == |sends| && sends[i] == Unknown
    case SendRaised(i) => i + 1 == |sends| && sends[i] == Raised
    case SendReturned(i) => i + 1 == |sends| && sends[i] == Returned
    case _ => true
  }

  predicate AllRecorded(sends: seq<SendOutcome>) {
    forall i :: 0 <= i < |sends| ==> sends[i] == RaisedAndRecorded
  }

  /** Every send but the last raised, and its failure was committed. */
  predicate OnlyLastOpen(sends: seq<SendOutcome>) {
    forall i :: 0 <= i < |sends| - 1 ==> sends[i] == RaisedAndRecorded
  }

  predicate DeliveryMatches(s: State) {
    match s.delivery
    case None => s.sends == []
    case Some(d) =>
      && (d.status == RetryableFailure ==> AllRecorded(s.sends) && s.sends != [])
      && (d.status == Sent ==> s.sends != [] && s.sends[|s.sends| - 1] == Returned)
      && |s.sends| <= d.attempts
      && (d.status == Sent <==> d.deliveredAt.Some?)
  }

  ghost predicate WorkersMatch(s: State) {
    && (forall c :: Executes(s, c) && Sending(StageOf(s, c)) ==>
                      && s.delivery.Some? && s.delivery.value.status in {DeliveryStatus.Sending, AmbiguousFailure}
                      && OwnsLastSend(s.sends, StageOf(s, c))
                      && (StageOf(s, c).Guarded? ==> AllRecorded(s.sends) && |s.sends| < s.delivery.value.attempts))
    && (forall c, d :: Executes(s, c) && Executes(s, d) && Sending(StageOf(s, c)) && Sending(StageOf(s, d)) ==> c == d)
  }

  ghost predicate AttemptsMatch(s: State) {
    && s.job.attempts <= s.job.maxAttempts
    && (forall c :: Executes(s, c) ==> 1 <= AttemptOf(s, c) <= s.job.attempts)
    && (forall c, d :: Executes(s, c) && Executes(s, d) && AttemptOf(s, c) == AttemptOf(s, d) ==> c == d)
    && (forall k :: k in s.passed ==> 1 <= k <= s.job.attempts)
    && |s.passed| == (if s.delivery.Some? then s.delivery.value.attempts else 0)
    && (forall c :: Executes(s, c) && BeforeGuard(StageOf(s, c)) ==> AttemptOf(s, c) !in s.passed)
  }

  predicate RowMatches(s: State) {
    && (s.job.lease.Some? <==> s.job.status == Running)
    && (s.job.startedAt.Some? <==> s.job.attempts > 0)
    && (s.job.status == Pending ==> s.job.attempts == 0)
    && (Terminal(s.job.status) ==> s.job.completedAt.Some?)
    && (s.job.status == Succeeded ==> s.job.result.Some?)
    && (s.job.kind == EmailNotification && s.job.status == Succeeded ==>
          s.delivery.Some? && s.delivery.value.status == Sent)
    && (s.job.kind == TicketExport ==> s.delivery.None?)
  }

  ghost predicate KindMatches(s: State) {
    forall c :: Executes(s, c) && s.job.kind == TicketExport ==>
                  !Sending(StageOf(s, c)) && !StageOf(s, c).NoRowSeen?
  }

  ghost predicate Safe(s: State) {
    && OnlyLastOpen(s.sends)
    && DeliveryMatches(s)
    && WorkersMatch(s)
    && AttemptsMatch(s)
    && RowMatches(s)
    && KindMatches(s)
  }

  /** `t` differs from `s` in nothing but the phase of copy `c`, `c` ends in `stage` or stops
      executing, and the two histories and the rows are as given. */
  ghost predicate Moves(s: State, t: State, c: int, to: Option<Stage>) {
    && Executes(s, c)
    && (forall d :: d != c ==> (Executes(t, d) <==> Executes(s, d)))
    && (forall d :: d != c && Executes(s, d) ==> t.copies[d].phase == s.copies[d].phase)
    && (to.None? ==> !Executes(t, c))
    && (to.Some? ==> Executes(t, c) && StageOf(t, c) == to.value && AttemptOf(t, c) == AttemptOf(s, c))
  }

  /** A worker that stops executing, or goes on without a hand in the delivery. */
  predicate Quiet(s: State, c: int, to: Option<Stage>)
    requires Executes(s, c)
  {
    to.None? || to.value.Failing? || to.value.Erring?
    || (to.value.NoRowSeen? && StageOf(s, c).Claimed? && s.job.kind == EmailNotification)
  }

  lemma QuietWorkers(s: State, t: State, c: int, to: Option<Stage>)
    requires WorkersMatch(s) && Moves(s, t, c, to) && Quiet(s, c, to)
    requires t.delivery == s.delivery && t.sends == s.sends
    ensures WorkersMatch(t)
  {
  }

  lemma QuietAttempts(s: State, t: State, c: int, to: Option<Stage>)
    requires AttemptsMatch(s) && Moves(s, t, c, to) && Quiet(s, c, to)
    requires t.delivery == s.delivery && t.passed == s.passed
    requires t.job.attempts == s.job.attempts && t.job.maxAttempts == s.job.maxAttempts
    ensures AttemptsMatch(t)
  {
  }

  lemma QuietKinds(s: State, t: State, c: int, to: Option<Stage>)
    requires KindMatches(s) && Moves(s, t, c, to) && Quiet(s, c, to) && t.job.kind == s.job.kind
    ensures KindMatches(t)
  {
  }

  lemma QuietMove(s: State, t: State, c: int, to: Option<Stage>)
    requires Safe(s) && Moves(s, t, c, to) && RowMatches(t) && Quiet(s, c, to)
    requires t.delivery == s.delivery && t.sends == s.sends && t.passed == s.passed
    requires t.job.kind == s.job.kind && t.job.attempts == s.job.attempts && t.job.maxAttempts == s.job.maxAttempts
    ensures Safe(t)
  {
    hide WorkersMatch, AttemptsMatch, KindMatches, Moves;
    QuietWorkers(s, t, c, to);
    QuietAttempts(s, t, c, to);
    QuietKinds(s, t, c, to);
  }

  lemma GuardKeepsSafe(s: State, t: State, c: int)
    requires Safe(s) && Moves(s, t, c, Some(Guarded)) && BeforeGuard(StageOf(s, c))
    requires s.job.kind == EmailNotification && t.job == s.job && t.sends == s.sends
    requires t.passed == s.passed + {AttemptOf(s, c)}
    requires s.delivery.None? || s.delivery.value.status == RetryableFailure
    requires t.delivery == Some(if s.delivery.None? then FIRST_DELIVERY else GuardRow(s.delivery).row)
    ensures Safe(t)
  {
    assert |t.passed| == |s.passed| + 1;
    assert AllRecorded(s.sends);
    assert forall d :: Executes(s, d) ==> !Sending(StageOf(s, d));
  }

  lemma SuppressKeepsSafe(s: State, t: State, c: int)
    requires Safe(s) && Moves(s, t, c, Some(Failing(DeliveryAmbiguous)))
    requires s.delivery.Some? && s.delivery.value.status in {DeliveryStatus.Sending, AmbiguousFailure}
    requires t == s.(copies := t.copies, delivery := Some(s.delivery.value.(status := AmbiguousFailure)))
    ensures Safe(t)
  {
  }

  lemma SendKeepsSafe(s: State, t: State, c: int, to: Stage)
    requires Safe(s) && Moves(s, t, c, Some(to)) && t == s.(copies := t.copies, sends := t.sends)
    requires match StageOf(s, c)
             case Guarded => to == InSend(|s.sends|) && t.sends == s.sends + [Unknown]
             case InSend(i) =>
               || (to == SendReturned(i) && i < |s.sends| && t.sends == s.sends[i := Returned])
               || (to == SendRaised(i) && i < |s.sends| && t.sends == s.sends[i := Raised])
             case _ => false
    ensures Safe(t)
  {
  }

  lemma RecordKeepsSafe(s: State, t: State, c: int, to: Option<Stage>)
    requires Safe(s) && Moves(s, t, c, to) && s.delivery.Some? && t.delivery.Some?
    requires t.passed == s.passed && t.delivery.value.attempts == s.delivery.value.attempts
    requires match StageOf(s, c)
             case SendRaised(i) =>
               && to == Some(Erring) && i < |s.sends| && t.sends == s.sends[i := RaisedAndRecorded] && t.job == s.job
               && t.delivery.value.status == RetryableFailure
               && t.delivery.value.deliveredAt == s.delivery.value.deliveredAt
             case SendReturned(i) =>
               && to == None && t.sends == s.sends && t.job == SucceedRow(s.job, s.now, DeliverySent)
               && t.delivery.value.status == Sent && t.delivery.value.deliveredAt.Some?
             case _ => false
    ensures Safe(t)
  {
    assert forall d :: Executes(s, d) && Sending(StageOf(s, d)) ==> d == c;
    assert Sending(StageOf(s, c));
  }

  function StageAfter(t: State, c: int): Option<Stage> {
    if Executes(t, c) then Some(StageOf(t, c)) else None
  }

  /** A worker that goes on executing keeps its attempt number and its deadline. */
  lemma WorkerKeepsNumber(cfg: Settings, s: State, c: int, step: Step)
    requires Executes(s, c)
    ensures var p := s.copies[c].phase;
            var t := WorkerStep(cfg, s, c, p.deadline, p.attempt, p.stage, step);
            Executes(t, c) ==> t.copies[c].phase.attempt == p.attempt && t.copies[c].phase.deadline == p.deadline
  {
  }

  lemma WorkerMoves(cfg: Settings, s: State, c: int, step: Step)
    requires Executes(s, c)
    ensures var t := WorkerStep(cfg, s, c, s.copies[c].phase.deadline, AttemptOf(s, c), StageOf(s, c), step);
            && Moves(s, t, c, StageAfter(t, c))
            && (Executes(t, c) ==> t.copies[c].phase.deadline == s.copies[c].phase.deadline)
  {
    hide WorkerStep;
    var p := s.copies[c].phase;
    var t := WorkerStep(cfg, s, c, p.deadline, p.attempt, p.stage, step);
    WorkerStepFrame(cfg, s, c, p.deadline, p.attempt, p.stage, step);
    WorkerKeepsNumber(cfg, s, c, step);
    forall d | d != c ensures Executes(t, d) <==> Executes(s, d) {
      assert d in t.copies <==> d in t.copies.Keys;
      assert d in s.copies <==> d in s.copies.Keys;
    }
  }

  /** Commits that touch the delivery row or the send history. */
  predicate TouchesDelivery(step: Step) {
    step.Guard? || step.Insert? || step.StartSend? || step.SendReturns? || step.SendRaises?
    || step.RecordSent? || step.RecordRaise?
  }

  /** What passing, or not passing, the guard does besides moving the worker. */
  lemma GuardStepEffect(cfg: Settings, s: State, c: int, step: Step)
    requires RowMatches(s) && Executes(s, c) && (step.Guard? || step.Insert?)
    requires StageOf(s, c).NoRowSeen? ==> s.job.kind == EmailNotification
    ensures var t := WorkerStep(cfg, s, c, s.copies[c].phase.deadline, AttemptOf(s, c), StageOf(s, c), step);
            var to := StageAfter(t, c);
            || t == s
            || (&& to == Some(Guarded) && BeforeGuard(StageOf(s, c)) && s.job.kind == EmailNotification
                && t.job == s.job && t.sends == s.sends && t.passed == s.passed + {AttemptOf(s, c)}
                && (s.delivery.None? || s.delivery.value.status == RetryableFailure)
                && t.delivery == Some(if s.delivery.None? then FIRST_DELIVERY else GuardRow(s.delivery).row))
            || (&& to == Some(Failing(DeliveryAmbiguous))
                && s.delivery.Some? && s.delivery.value.status in {DeliveryStatus.Sending, AmbiguousFailure}
                && t == s.(copies := t.copies, delivery := Some(s.delivery.value.(status := AmbiguousFailure))))
            || (&& Quiet(s, c, to) && RowMatches(t)
                && t.delivery == s.delivery && t.sends == s.sends && t.passed == s.passed
                && t.job.kind == s.job.kind && t.job.attempts == s.job.attempts
                && t.job.maxAttempts == s.job.maxAttempts)
  {
  }

  lemma GuardStepKeepsSafe(cfg: Settings, s: State, c: int, step: Step)
    requires Safe(s) && Executes(s, c) && (step.Guard? || step.Insert?)
    ensures Safe(WorkerStep(cfg, s, c, s.copies[c].phase.deadline, AttemptOf(s, c), StageOf(s, c), step))
  {
    assert StageOf(s, c).NoRowSeen? ==> s.job.kind == EmailNotification;
    hide WorkerStep, Moves, WorkersMatch, AttemptsMatch, KindMatches, DeliveryMatches, OnlyLastOpen;
    var p := s.copies[c].phase;
    var t := WorkerStep(cfg, s, c, p.deadline, p.attempt, p.stage, step);
    WorkerMoves(cfg, s, c, step);
    GuardStepEffect(cfg, s, c, step);
    if t == s {
    } else if StageAfter(t, c) == Some(Guarded) {
      GuardKeepsSafe(s, t, c);
    } else if t.delivery != s.delivery {
      SuppressKeepsSafe(s, t, c);
    } else {
      QuietMove(s, t, c, StageAfter(t, c));
    }
  }

  lemma DeliveryStepKeepsSafe(cfg: Settings, s: State, c: int, step: Step)
    requires Safe(s) && Executes(s, c) && TouchesDelivery(step) && !step.Guard? && !step.Insert?
    ensures Safe(WorkerStep(cfg, s, c, s.copies[c].phase.deadline, AttemptOf(s, c), StageOf(s, c), step))
  {
    var p := s.copies[c].phase;
    var t := WorkerStep(cfg, s, c, p.deadline, p.attempt, p.stage, step);
    WorkerMoves(cfg, s, c, step);
    if t != s {
      assert Sending(p.stage) && s.delivery.Some?;
      if step.RecordSent? || step.RecordRaise? {
        RecordKeepsSafe(s, t, c, StageAfter(t, c));
      } else {
        SendKeepsSafe(s, t, c, StageOf(t, c));
      }
    }
  }

  lemma OtherStepEffect(cfg: Settings, s: State, c: int, step: Step)
    requires RowMatches(s) && Executes(s, c) && !TouchesDelivery(step) && 1 <= AttemptOf(s, c) <= s.job.attempts
    requires s.job.kind == TicketExport || !step.Export?
    ensures var t := WorkerStep(cfg, s, c, s.copies[c].phase.deadline, AttemptOf(s, c), StageOf(s, c), step);
            || t == s
            || (&& Quiet(s, c, StageAfter(t, c)) && RowMatches(t)
                && t.delivery == s.delivery && t.sends == s.sends && t.passed == s.passed)
  {
  }

  lemma ExportOfEmailIsNothing(cfg: Settings, s: State, c: int, step: Step)
    requires Executes(s, c) && step.Export? && s.job.kind != TicketExport
    ensures WorkerStep(cfg, s, c, s.copies[c].phase.deadline, AttemptOf(s, c), StageOf(s, c), step) == s
  {
  }

  lemma OtherStepKeepsSafe(cfg: Settings, s: State, c: int, step: Step)
    requires Safe(s) && Executes(s, c) && !TouchesDelivery(step)
    ensures Safe(WorkerStep(cfg, s, c, s.copies[c].phase.deadline, AttemptOf(s, c), StageOf(s, c), step))
  {
    var p := s.copies[c].phase;
    assert 1 <= AttemptOf(s, c) <= s.job.attempts;
    hide WorkerStep, Moves, WorkersMatch, AttemptsMatch, KindMatches, DeliveryMatches, OnlyLastOpen, RowMatches, Quiet;
    if step.Export? && s.job.kind != TicketExport {
      ExportOfEmailIsNothing(cfg, s, c, step);
    } else {
      var t := WorkerStep(cfg, s, c, p.deadline, p.attempt, p.stage, step);
      WorkerMoves(cfg, s, c, step);
      WorkerStepFrame(cfg, s, c, p.deadline, p.attempt, p.stage, step);
      OtherStepEffect(cfg, s, c, step);
      if t != s {
        QuietMove(s, t, c, StageAfter(t, c));
      }
    }
  }

  lemma GrantKeepsSafe(s: State, t: State, c: int, deadline: int)
    requires Safe(s) && c in s.copies && !Executes(s, c)
    requires s.job.attempts < s.job.maxAttempts
    requires t == s.(job := t.job, copies := t.copies) && RowMatches(t)
    requires t.job.kind == s.job.kind && t.job.attempts == s.job.attempts + 1 && t.job.maxAttempts == s.job.maxAttempts
    requires c in t.copies && t.copies[c].phase == Executing(deadline, t.job.attempts, Claimed)
    requires forall d :: d != c ==> (Executes(t, d) <==> Executes(s, d))
    requires forall d :: d != c && Executes(s, d) ==> d in t.copies && t.copies[d].phase == s.copies[d].phase
    ensures Safe(t)
  {
  }

  /** Steps that leave the set of executing copies alone, or end one of them. */
  lemma OutsideKeepsSafe(s: State, t: State)
    requires Safe(s) && RowMatches(t)
    requires t == s.(now := t.now, job := t.job, copies := t.copies)
    requires t.job.kind == s.job.kind && t.job.attempts == s.job.attempts && t.job.maxAttempts == s.job.maxAttempts
    requires forall d :: Executes(t, d) ==> Executes(s, d) && t.copies[d].phase == s.copies[d].phase
    ensures Safe(t)
  {
  }

  lemma ClaimKeepsSafe(cfg: Settings, s: State, c: int)
    requires Safe(s) && c in s.copies && s.copies[c].phase.ClockRead?
    ensures Safe(ClaimStep(cfg, s, c))
  {
    var t := ClaimStep(cfg, s, c);
    if ClaimRow(Some(s.job), s.copies[c].phase.read, cfg).Granted? {
      GrantKeepsSafe(s, t, c, s.copies[c].phase.deadline);
    } else {
      OutsideKeepsSafe(s, t);
    }
  }

  lemma WorkerStepKeepsSafe(cfg: Settings, s: State, c: int, step: Step)
    requires Safe(s) && Executes(s, c)
    ensures Safe(WorkerStep(cfg, s, c, s.copies[c].phase.deadline, AttemptOf(s, c), StageOf(s, c), step))
  {
    hide WorkerStep, Safe;
    if step.Guard? || step.Insert? {
      GuardStepKeepsSafe(cfg, s, c, step);
    } else if TouchesDelivery(step) {
      DeliveryStepKeepsSafe(cfg, s, c, step);
    } else {
      OtherStepKeepsSafe(cfg, s, c, step);
    }
  }

  lemma RowsKeptKeepsSafe(cfg: Settings, s: State, t: State)
    requires Safe(s) && RowsKept(cfg, s, t)
    ensures Safe(t)
  {
    OutsideKeepsSafe(s, t);
  }

  /** Every step of every worker, crash and delivery keeps the invariant. */
  lemma StepKeepsSafe(cfg: Settings, s: State, step: Step)
    requires Safe(s)
    ensures Safe(Apply(cfg, s, step))
  {
    hide Apply, WorkerStep, ClaimStep, Safe, RowsKept;
    KindsOfStep(cfg, s, step);
    if WorkerTurn(s, step) {
      WorkerStepKeepsSafe(cfg, s, step.c, step);
    } else if ClaimTurn(s, step) {
      ClaimKeepsSafe(cfg, s, step.c);
    } else {
      RowsKeptKeepsSafe(cfg, s, Apply(cfg, s, step));
    }
  }

  lemma {:induction false} RunKeepsSafe(cfg: Settings, s: State, steps: seq<Step>)
    requires Safe(s)
    ensures Safe(Run(cfg, s, steps))
    decreases |steps|
  {
    hide Apply, Safe;
    if steps != [] {
      StepKeepsSafe(cfg, s, steps[0]);
      RunKeepsSafe(cfg, Apply(cfg, s, steps[0]), steps[1..]);
    }
  }

  lemma {:induction false} ReachedIsSafe(cfg: Settings, now: int, kind: JobKind, payloadOk: bool, maxAttempts: nat,
                                         steps: seq<Step>)
    ensures Safe(Reached(cfg, now, kind, payloadOk, maxAttempts, steps))
  {
    RunKeepsSafe(cfg, Init(now, kind, payloadOk, maxAttempts), steps);
  }

  // ---- what follows for every run ------------------------------------------------------------

  function Recorded(sends: seq<SendOutcome>): nat {
    if sends == [] then 0 else (if sends[0] == RaisedAndRecorded then 1 else 0) + Recorded(sends[1..])
  }

  lemma {:induction false} RecordedAll(sends: seq<SendOutcome>)
    requires OnlyLastOpen(sends)
    ensures |sends| <= 1 + Recorded(sends)
  {
    if |sends| > 1 {
      assert sends[0] == RaisedAndRecorded;
      assert forall i :: 0 <= i < |sends[1..]| - 1 ==> sends[1..][i] == sends[i + 1];
      RecordedAll(sends[1..]);
    }
  }

  /** Send calls started never exceed one plus the calls that raised with the failure recorded; all
      but the last call are such calls; and no more calls start than the job has attempts. */
  lemma AtMostOneOpenSend(cfg: Settings, now: int, kind: JobKind, payloadOk: bool, maxAttempts: nat, steps: seq<Step>)
    ensures var s := Reached(cfg, now, kind, payloadOk, maxAttempts, steps);
            && OnlyLastOpen(s.sends)
            && |s.sends| <= 1 + Recorded(s.sends)
            && |s.sends| <= s.job.attempts <= maxAttempts
  {
    ReachedIsSafe(cfg, now, kind, payloadOk, maxAttempts, steps);
    RecordedAll(Reached(cfg, now, kind, payloadOk, maxAttempts, steps).sends);
    DeliveryAttemptsBounded(cfg, now, kind, payloadOk, maxAttempts, steps);
  }

  lemma {:induction false} NumbersUpTo(n: nat, numbers: set<nat>)
    requires forall k :: k in numbers ==> 1 <= k <= n
    ensures |numbers| <= n
  {
    if n == 0 {
      assert numbers == {};
    } else {
      NumbersUpTo(n - 1, numbers - {n});
      assert |numbers| <= |numbers - {n}| + 1 by {
        assert n !in numbers ==> numbers - {n} == numbers;
      }
    }
  }

  /** Columns no commit rewrites, and the ones that only move forward. */
  predicate RowAdvances(a: Job, b: Job) {
    && a.kind == b.kind && a.payloadOk == b.payloadOk && a.maxAttempts == b.maxAttempts
    && a.attempts <= b.attempts
    && (a.startedAt.Some? ==> b.startedAt == a.startedAt)
  }

  lemma StepAdvancesRow(cfg: Settings, s: State, step: Step)
    ensures RowAdvances(s.job, Apply(cfg, s, step).job)
  {
    hide Apply, WorkerStep, RowsKept;
    KindsOfStep(cfg, s, step);
    if WorkerTurn(s, step) {
      var p := s.copies[step.c].phase;
      WorkerStepFrame(cfg, s, step.c, p.deadline, p.attempt, p.stage, step);
    } else if !ClaimTurn(s, step) {
      RowsKeptJob(cfg, s, Apply(cfg, s, step));
    }
  }

  lemma RowsKeptJob(cfg: Settings, s: State, t: State)
    requires RowsKept(cfg, s, t)
    ensures t.job == s.job
  {
  }

  lemma {:induction false} RunAdvancesRow(cfg: Settings, s: State, steps: seq<Step>)
    ensures RowAdvances(s.job, Run(cfg, s, steps).job)
    decreases |steps|
  {
    hide Apply;
    if steps != [] {
      StepAdvancesRow(cfg, s, steps[0]);
      RunAdvancesRow(cfg, Apply(cfg, s, steps[0]), steps[1..]);
    }
  }

  /** Delivery attempts never exceed job attempts, which never exceed the limit. */
  lemma DeliveryAttemptsBounded(cfg: Settings, now: int, kind: JobKind, payloadOk: bool, maxAttempts: nat,
                                steps: seq<Step>)
    ensures var s := Reached(cfg, now, kind, payloadOk, maxAttempts, steps);
            && (s.delivery.Some? ==> |s.sends| <= s.delivery.value.attempts <= s.job.attempts)
            && (s.delivery.None? ==> s.sends == [])
            && s.job.attempts <= maxAttempts
  {
    var s := Reached(cfg, now, kind, payloadOk, maxAttempts, steps);
    ReachedIsSafe(cfg, now, kind, payloadOk, maxAttempts, steps);
    RunAdvancesRow(cfg, Init(now, kind, payloadOk, maxAttempts), steps);
    NumbersUpTo(s.job.attempts, s.passed);
  }

  /** An email job that reads succeeded had exactly one send return, after recorded failures only, and its
      delivery row says when. */
  lemma SucceededMeansSent(cfg: Settings, now: int, payloadOk: bool, maxAttempts: nat, steps: seq<Step>)
    ensures var s := Reached(cfg, now, EmailNotification, payloadOk, maxAttempts, steps);
            s.job.status == Succeeded ==>
              && s.sends != [] && s.sends[|s.sends| - 1] == Returned
              && AllRecorded(s.sends[..|s.sends| - 1])
              && s.delivery.Some? && s.delivery.value.status == Sent && s.delivery.value.deliveredAt.Some?
  {
    ReachedIsSafe(cfg, now, EmailNotification, payloadOk, maxAttempts, steps);
    RunAdvancesRow(cfg, Init(now, EmailNotification, payloadOk, maxAttempts), steps);
  }

  /** The last send returned, or its outcome is open and no worker lives to learn it: those that started
      it are gone or past their deadline. */
  ghost predicate Sealed(s: State) {
    && s.sends != []
    && s.sends[|s.sends| - 1] != RaisedAndRecorded
    && (s.sends[|s.sends| - 1] == Returned || forall c :: Alive(s, c) ==> !Sending(StageOf(s, c)))
  }

  lemma WorkerStepKeepsSealed(cfg: Settings, s: State, c: int, step: Step)
    requires Alive(s, c) && Sealed(s) && DeliveryMatches(s) && WorkersMatch(s)
    ensures var t := WorkerStep(cfg, s, c, s.copies[c].phase.deadline, AttemptOf(s, c), StageOf(s, c), step);
            t.sends == s.sends && Sealed(t)
  {
    var p := s.copies[c].phase;
    var t := WorkerStep(cfg, s, c, p.deadline, p.attempt, p.stage, step);
    WorkerMoves(cfg, s, c, step);
    assert t.sends == s.sends && t.now == s.now;
    if s.sends[|s.sends| - 1] != Returned {
      assert !Sending(p.stage);
      assert Executes(t, c) ==> !Sending(StageOf(t, c));
    }
  }

  lemma RowsKeptAlive(cfg: Settings, s: State, t: State, d: int)
    requires RowsKept(cfg, s, t) && Alive(t, d)
    ensures Alive(s, d) && t.copies[d] == s.copies[d]
  {
  }

  lemma ClaimKeepsSealed(cfg: Settings, s: State, c: int)
    requires Sealed(s) && c in s.copies && s.copies[c].phase.ClockRead?
    ensures ClaimStep(cfg, s, c).sends == s.sends && Sealed(ClaimStep(cfg, s, c))
  {
    var t := ClaimStep(cfg, s, c);
    assert forall d :: Alive(t, d) ==> (Alive(s, d) && t.copies[d] == s.copies[d]) || StageOf(t, d).Claimed?;
  }

  lemma StepKeepsSealed(cfg: Settings, s: State, step: Step)
    requires Sealed(s) && DeliveryMatches(s) && WorkersMatch(s)
    ensures Apply(cfg, s, step).sends == s.sends && Sealed(Apply(cfg, s, step))
  {
    hide Apply, WorkerStep, ClaimStep, WorkersMatch, DeliveryMatches;
    var t := Apply(cfg, s, step);
    KindsOfStep(cfg, s, step);
    if WorkerTurn(s, step) {
      WorkerStepKeepsSealed(cfg, s, step.c, step);
    } else if ClaimTurn(s, step) {
      ClaimKeepsSealed(cfg, s, step.c);
    } else {
      forall d | Alive(t, d) ensures Alive(s, d) && t.copies[d] == s.copies[d] {
        RowsKeptAlive(cfg, s, t, d);
      }
    }
  }

  /** Once a send returned, or ended with an outcome nobody lives to learn, no send ever starts. */
  lemma {:induction false} NoSendAfterSealed(cfg: Settings, s: State, more: seq<Step>)
    requires Safe(s) && Sealed(s)
    ensures Run(cfg, s, more).sends == s.sends
    decreases |more|
  {
    if more != [] {
      StepKeepsSafe(cfg, s, more[0]);
      StepKeepsSealed(cfg, s, more[0]);
      NoSendAfterSealed(cfg, Apply(cfg, s, more[0]), more[1..]);
    }
  }

  /** A worker that is killed while it sends seals the job at that moment. */
  lemma DeathInSendSeals(s: State, c: int)
    requires Safe(s) && Executes(s, c) && StageOf(s, c).InSend? && !Alive(s, c)
    ensures Sealed(s)
  {
  }
}
