/** One background job, any number of broker copies of its message, and the workers running them.

    Each step is one atomic action: a clock reading, one commit, the start or the end of the external
    send, or a crash. `Apply` is total; a step whose guard does not hold changes nothing, so a run is
    any sequence of steps. */
module JobProtocol {
  import opened Common
  import opened JobRows
  import Backoff

  /** Where a worker stands inside `execute`, after its claim committed. Numbers index `sends`. */
  datatype Stage =
    | Claimed
    | NoRowSeen
    | Guarded
    | InSend(entry: nat)
    | SendRaised(entry: nat)
    | SendReturned(entry: nat)
    | Failing(error: JobError)
    | Erring

  /** A copy of the message: waiting at the broker, held by a worker, or acknowledged.
      A worker is killed when the clock passes its deadline. */
  datatype Phase =
    | Queued(notBefore: int)
    | Started(deadline: int)
    | ClockRead(deadline: int, read: int)
    | Executing(deadline: int, attempt: nat, stage: Stage)
    | Gone

  /** The four counters are history: how often the copy was deferred by a lease or by a retryable
      failure, and the attempt number it was last deferred by, or last claimed. */
  datatype Copy = Copy(phase: Phase, bounces: nat, retries: nat, lastBounced: nat, lastClaimed: nat)

  /** What is known about one call of the mail sender. `Unknown` covers a call in progress and a call
      whose worker died. */
  datatype SendOutcome = Unknown | Returned | Raised | RaisedAndRecorded

  /** `sends` and `passed` are history: all send calls in order, and the attempt numbers whose worker
      got past the delivery guard. */
  datatype State = State(
    now: int,
    job: Job,
    delivery: Option<Delivery>,
    copies: map<int, Copy>,
    sends: seq<SendOutcome>,
    passed: set<nat>)

  datatype ExportOutcome = Written(rowCount: nat) | Rejected

  datatype Step =
    | Tick(elapsed: nat)
    | Deliver(c: int)
    | Start(c: int)
    | ReadClock(c: int)
    | Claim(c: int)
    | Guard(c: int)
    | Insert(c: int)
    | StartSend(c: int)
    | SendReturns(c: int)
    | SendRaises(c: int)
    | RecordSent(c: int)
    | RecordRaise(c: int)
    | Export(c: int, outcome: ExportOutcome)
    | Fault(c: int)
    | RecordFailure(c: int)
    | RecordRetry(c: int)
    | Crash(c: int, redelivered: bool)

  function Init(now: int, kind: JobKind, payloadOk: bool, maxAttempts: nat): State {
    State(now, NewJob(kind, payloadOk, maxAttempts), None, map[], [], {})
  }

  function At(s: State, c: int, phase: Phase): State
    requires c in s.copies
  {
    s.(copies := s.copies[c := s.copies[c].(phase := phase)])
  }

  function ClaimStep(cfg: Settings, s: State, c: int): State
    requires c in s.copies && s.copies[c].phase.ClockRead?
  {
    var k := s.copies[c];
    match ClaimRow(Some(s.job), k.phase.read, cfg)
    case NotClaimable => At(s, c, Gone)
    case LeaseActive(after) =>
      s.(copies := s.copies[c := k.(phase := Queued(s.now + after * SECOND),
      bounces := k.bounces + 1, lastBounced := s.job.attempts)])
    case Exhausted(row) => At(s, c, Gone).(job := row)
    case Granted(row) =>
      s.(job := row, copies := s.copies[c := k.(phase := Executing(k.phase.deadline, row.attempts, Claimed),
      lastClaimed := row.attempts)])
  }

  function WorkerStep(cfg: Settings, s: State, c: int, deadline: int, attempt: nat, stage: Stage, step: Step): State
    requires c in s.copies
  {
    var To := (to: Stage) => Executing(deadline, attempt, to);
    match (stage, step)
    case (Claimed, Guard(_)) =>
      if s.job.kind != EmailNotification then s
      else if !s.job.payloadOk then At(s, c, To(Failing(InvalidPayload)))
      else (
             match GuardRow(s.delivery)
             case AlreadySent => At(s, c, Gone).(job := SucceedRow(s.job, s.now, DeliverySent))
             case Suppressed(row) => At(s, c, To(Failing(DeliveryAmbiguous))).(delivery := Some(row))
             case NoDelivery => At(s, c, To(NoRowSeen))
             case Resumed(row) => At(s, c, To(Guarded)).(delivery := Some(row), passed := s.passed + {attempt}))
    case (NoRowSeen, Insert(_)) =>
      // A row inserted meanwhile violates the unique job id: the worker fails without sending.
      if s.delivery.Some? then At(s, c, To(Erring))
      else At(s, c, To(Guarded)).(delivery := Some(FIRST_DELIVERY), passed := s.passed + {attempt})
    case (Guarded, StartSend(_)) =>
      At(s, c, To(InSend(|s.sends|))).(sends := s.sends + [Unknown])
    case (InSend(i), SendReturns(_)) =>
      if i >= |s.sends| then s else At(s, c, To(SendReturned(i))).(sends := s.sends[i := Returned])
    case (InSend(i), SendRaises(_)) =>
      if i >= |s.sends| then s else At(s, c, To(SendRaised(i))).(sends := s.sends[i := Raised])
    case (SendRaised(i), RecordRaise(_)) =>
      if i >= |s.sends| then s
      else if s.delivery.None? then At(s, c, To(Erring))
      else At(s, c, To(Erring)).(delivery := Some(s.delivery.value.(status := RetryableFailure)),
           sends := s.sends[i := RaisedAndRecorded])
    case (SendReturned(_), RecordSent(_)) =>
      if s.delivery.None? then At(s, c, To(Failing(DeliveryMissing)))
      else At(s, c, Gone).(delivery := Some(s.delivery.value.(status := Sent, deliveredAt := Some(s.now))),
           job := SucceedRow(s.job, s.now, DeliverySent))
    case (Claimed, Export(_, outcome)) =>
      if s.job.kind != TicketExport then s
      else if outcome.Written? then At(s, c, Gone).(job := SucceedRow(s.job, s.now, ExportFile(outcome.rowCount)))
      else At(s, c, To(Failing(ExportRejected)))
    case (Failing(error), RecordFailure(_)) =>
      At(s, c, Gone).(job := FailRow(s.job, s.now, error))
    case (Erring, RecordRetry(_)) =>
      var k := s.copies[c];
      if RetriesLeft(s.job, attempt) then
        var wait := Backoff.RetryDelay(cfg.retryBase, cfg.retryMax, attempt) * SECOND;
        s.(job := RetryRow(s.job, attempt, s.now),
        copies := s.copies[c := k.(phase := Queued(s.now + wait), retries := k.retries + 1)])
      else
        At(s, c, Gone).(job := RetryRow(s.job, attempt, s.now))
    case (_, Fault(_)) =>
      // Any unexpected exception outside the send itself, for instance from the database.
      if stage.InSend? || stage.Failing? || stage.Erring? then s else At(s, c, To(Erring))
    case _ => s
  }

  function CopyStep(cfg: Settings, s: State, c: int, step: Step): State
    requires c in s.copies
  {
    var k := s.copies[c];
    match k.phase
    case Queued(notBefore) =>
      if step.Start? && notBefore <= s.now then At(s, c, Started(s.now + cfg.hardLimitSeconds * SECOND)) else s
    case Started(deadline) =>
      if step.Crash? then At(s, c, if step.redelivered then Queued(s.now) else Gone)
      else if step.ReadClock? && s.now <= deadline then At(s, c, ClockRead(deadline, s.now)) else s
    case ClockRead(deadline, _) =>
      if step.Crash? then At(s, c, if step.redelivered then Queued(s.now) else Gone)
      else if step.Claim? && s.now <= deadline then ClaimStep(cfg, s, c) else s
    case Executing(deadline, attempt, stage) =>
      if step.Crash? then At(s, c, if step.redelivered then Queued(s.now) else Gone)
      else if s.now <= deadline then WorkerStep(cfg, s, c, deadline, attempt, stage, step) else s
    case Gone => s
  }

  function Apply(cfg: Settings, s: State, step: Step): State {
    match step
    case Tick(elapsed) => s.(now := s.now + elapsed)
    case Deliver(c) => if c in s.copies then s else s.(copies := s.copies[c := Copy(Queued(s.now), 0, 0, 0, 0)])
    case _ => if step.c in s.copies then CopyStep(cfg, s, step.c, step) else s
  }

  function Run(cfg: Settings, s: State, steps: seq<Step>): State
    decreases |steps|
  {
    if steps == [] then s else Run(cfg, Apply(cfg, s, steps[0]), steps[1..])
  }

  function Reached(cfg: Settings, now: int, kind: JobKind, payloadOk: bool, maxAttempts: nat, steps: seq<Step>): State {
    Run(cfg, Init(now, kind, payloadOk, maxAttempts), steps)
  }

  lemma {:induction false} RunAppend(cfg: Settings, s: State, a: seq<Step>, b: seq<Step>)
    ensures Run(cfg, s, a + b) == Run(cfg, Run(cfg, s, a), b)
    decreases |a|
  {
    if a == [] {
      assert a + b == b;
    } else {
      assert (a + b)[1..] == a[1..] + b;
      RunAppend(cfg, Apply(cfg, s, a[0]), a[1..], b);
    }
  }

  // ---- the three kinds of step -----------------------------------------------------------------

  /** A live worker takes a step of `execute` after its claim. */
  predicate WorkerTurn(s: State, step: Step) {
    && !step.Tick? && !step.Deliver? && !step.Crash?
    && step.c in s.copies && s.copies[step.c].phase.Executing?
    && s.now <= s.copies[step.c].phase.deadline
  }

  predicate ClaimTurn(s: State, step: Step) {
    step.Claim? && step.c in s.copies && s.copies[step.c].phase.ClockRead? && s.now <= s.copies[step.c].phase.deadline
  }

  /** A copy outside `execute`, or one whose worker dies. */
  predicate MovesOutside(cfg: Settings, now: int, a: Copy, b: Copy) {
    && b == a.(phase := b.phase)
    && match a.phase
       case Queued(notBefore) => notBefore <= now && b.phase == Started(now + cfg.hardLimitSeconds * SECOND)
       case Started(deadline) => b.phase == ClockRead(deadline, now) || b.phase == Queued(now) || b.phase.Gone?
       case Gone => false
       case _ => b.phase == Queued(now) || b.phase.Gone?
  }

  /** Neither rows nor histories change, and each copy stays, moves outside, or is new. */
  ghost predicate RowsKept(cfg: Settings, s: State, t: State) {
    && t == s.(now := t.now, copies := t.copies) && s.now <= t.now
    && (t.copies == s.copies || t.now == s.now)
    && forall c :: c in t.copies ==>
                     if c in s.copies
                     then t.copies[c] == s.copies[c] || MovesOutside(cfg, s.now, s.copies[c], t.copies[c])
                     else t.copies[c] == Copy(Queued(s.now), 0, 0, 0, 0)
  }

  lemma KindsOfStep(cfg: Settings, s: State, step: Step)
    ensures var t := Apply(cfg, s, step);
            if WorkerTurn(s, step) then
              var p := s.copies[step.c].phase;
              t == WorkerStep(cfg, s, step.c, p.deadline, p.attempt, p.stage, step)
            else if ClaimTurn(s, step) then t == ClaimStep(cfg, s, step.c)
            else RowsKept(cfg, s, t)
  {
  }

  /** What no step of a worker touches: the clock, the other copies, and all but the outcome columns. */
  lemma WorkerStepFrame(cfg: Settings, s: State, c: int, deadline: int, attempt: nat, stage: Stage, step: Step)
    requires c in s.copies
    ensures var t := WorkerStep(cfg, s, c, deadline, attempt, stage, step);
            && t.now == s.now && t.copies.Keys == s.copies.Keys
            && (forall d :: d != c && d in s.copies ==> t.copies[d] == s.copies[d])
            && t.job.kind == s.job.kind && t.job.payloadOk == s.job.payloadOk
            && t.job.attempts == s.job.attempts && t.job.maxAttempts == s.job.maxAttempts
            && t.job.startedAt == s.job.startedAt
            && (t.job.lease == s.job.lease || t.job.lease == None)
  {
  }
}
