/** Why a job ends as it does: the reasons a failed row can give, and that an execution nothing disturbs goes
    all the way, step by step, to the rows the executor leaves. */
module JobOutcomes {
  import opened Common
  import opened JobRows
  import opened JobProtocol
  import opened JobSafety
  import Backoff

  // ---- a failure has its reason ------------------------------------------------------------------

  /** What a failed row says holds of the job: it ran out of attempts only with all of them used. */
  predicate Justified(job: Job, error: JobError) {
    match error
    case AttemptsExhausted => job.attempts == job.maxAttempts
    case ExecutionFailed => job.attempts == job.maxAttempts
    case InvalidPayload => job.kind == EmailNotification && !job.payloadOk
    case DeliveryAmbiguous => job.kind == EmailNotification && job.payloadOk
    case ExportRejected => job.kind == TicketExport
    case DeliveryMissing => false
  }

  /** A worker that is about to record a failure of its own has such a reason, and not a lack of attempts. */
  predicate StageJustified(job: Job, stage: Stage) {
    && (stage.Failing? ==>
          Justified(job, stage.error) && stage.error != AttemptsExhausted && stage.error != ExecutionFailed)
    && (stage.NoRowSeen? || JobSafety.Sending(stage) ==> job.kind == EmailNotification && job.payloadOk)
  }

  predicate RowJustified(job: Job) {
    job.status == Failed ==> job.error.Some? && Justified(job, job.error.value)
  }

  ghost predicate Reasoned(s: State) {
    && RowJustified(s.job)
    && forall c :: Executes(s, c) ==> StageJustified(s.job, StageOf(s, c))
  }

  lemma OwnStepReasoned(cfg: Settings, s: State, c: int, step: Step)
    requires Executes(s, c) && 1 <= AttemptOf(s, c) <= s.job.attempts <= s.job.maxAttempts
    requires JobSafety.Sending(StageOf(s, c)) ==> s.delivery.Some?
    requires RowJustified(s.job) && StageJustified(s.job, StageOf(s, c))
    ensures var t := WorkerStep(cfg, s, c, s.copies[c].phase.deadline, AttemptOf(s, c), StageOf(s, c), step);
            RowJustified(t.job) && (Executes(t, c) ==> StageJustified(s.job, StageOf(t, c)))
  {
  }

  lemma SameColumnsReasoned(a: Job, b: Job, stage: Stage)
    requires StageJustified(a, stage) && a.kind == b.kind && a.payloadOk == b.payloadOk
    ensures StageJustified(b, stage)
  {
  }

  lemma WorkerStepReasoned(cfg: Settings, s: State, c: int, step: Step)
    requires Safe(s) && Reasoned(s) && Executes(s, c)
    ensures Reasoned(WorkerStep(cfg, s, c, s.copies[c].phase.deadline, AttemptOf(s, c), StageOf(s, c), step))
  {
    var t := WorkerStep(cfg, s, c, s.copies[c].phase.deadline, AttemptOf(s, c), StageOf(s, c), step);
    assert 1 <= AttemptOf(s, c) <= s.job.attempts <= s.job.maxAttempts;
    assert JobSafety.Sending(StageOf(s, c)) ==> s.delivery.Some?;
    hide WorkerStep, Safe, RowJustified, StageJustified, JobSafety.Sending;
    OwnStepReasoned(cfg, s, c, step);
    WorkerMoves(cfg, s, c, step);
    WorkerStepFrame(cfg, s, c, s.copies[c].phase.deadline, AttemptOf(s, c), StageOf(s, c), step);
    forall d | Executes(t, d) ensures StageJustified(t.job, StageOf(t, d)) {
      SameColumnsReasoned(s.job, t.job, StageOf(t, d));
    }
  }

  lemma ClaimReasoned(cfg: Settings, s: State, c: int)
    requires Safe(s) && Reasoned(s) && c in s.copies && s.copies[c].phase.ClockRead?
    ensures Reasoned(ClaimStep(cfg, s, c))
  {
    var t := ClaimStep(cfg, s, c);
    ClaimedExactlyWhen(s.job, s.copies[c].phase.read, cfg);
    assert s.job.attempts <= s.job.maxAttempts;
    forall d | Executes(t, d) ensures StageJustified(t.job, StageOf(t, d)) {
      if d != c {
        assert Executes(s, d);
        SameColumnsReasoned(s.job, t.job, StageOf(t, d));
      }
    }
  }

  lemma OutsideReasoned(cfg: Settings, s: State, t: State)
    requires Reasoned(s) && RowsKept(cfg, s, t)
    ensures Reasoned(t)
  {
    forall c | Executes(t, c) ensures Executes(s, c) && StageOf(t, c) == StageOf(s, c) {
      assert c in t.copies;
    }
  }

  lemma StepKeepsReasoned(cfg: Settings, s: State, step: Step)
    requires Safe(s) && Reasoned(s)
    ensures Reasoned(Apply(cfg, s, step))
  {
    hide Apply, WorkerStep, ClaimStep, Safe, RowsKept, Reasoned;
    KindsOfStep(cfg, s, step);
    if WorkerTurn(s, step) {
      WorkerStepReasoned(cfg, s, step.c, step);
    } else if ClaimTurn(s, step) {
      ClaimReasoned(cfg, s, step.c);
    } else {
      OutsideReasoned(cfg, s, Apply(cfg, s, step));
    }
  }

  lemma {:induction false} RunKeepsReasoned(cfg: Settings, s: State, steps: seq<Step>)
    requires Safe(s) && Reasoned(s)
    ensures Reasoned(Run(cfg, s, steps))
    decreases |steps|
  {
    hide Apply, Safe, Reasoned;
    if steps != [] {
      StepKeepsSafe(cfg, s, steps[0]);
      StepKeepsReasoned(cfg, s, steps[0]);
      RunKeepsReasoned(cfg, Apply(cfg, s, steps[0]), steps[1..]);
    }
  }

  /** In every run a job that failed says why, and rightly: for want of attempts only with every attempt
      used, as ambiguous or invalid only for an email with or without its payload, and never for a delivery
      row that went missing. */
  lemma FailureHasItsReason(cfg: Settings, now: int, kind: JobKind, payloadOk: bool, maxAttempts: nat, steps: seq<Step>)
    ensures var s := Reached(cfg, now, kind, payloadOk, maxAttempts, steps);
            s.job.status == Failed ==>
              && s.job.error.Some? && s.job.error != Some(DeliveryMissing)
              && (s.job.error.value == ExecutionFailed || s.job.error.value == AttemptsExhausted ==>
                    s.job.attempts == maxAttempts)
              && (s.job.error.value == InvalidPayload ==> kind == EmailNotification && !payloadOk)
              && (s.job.error.value == DeliveryAmbiguous ==> kind == EmailNotification && payloadOk)
              && (s.job.error.value == ExportRejected ==> kind == TicketExport)
  {
    var s0 := Init(now, kind, payloadOk, maxAttempts);
    RunKeepsReasoned(cfg, s0, steps);
    RunAdvancesRow(cfg, s0, steps);
  }

  // ---- an execution nothing disturbs ---------------------------------------------------------------

  predicate At(s: State, c: int, deadline: int, attempt: nat, stage: Stage) {
    c in s.copies && s.copies[c].phase == Executing(deadline, attempt, stage) && s.now <= deadline
  }

  /** The copy whose worker goes on, or is done with it. */
  function Put(s: State, c: int, phase: Phase): map<int, Copy>
    requires c in s.copies
  {
    s.copies[c := s.copies[c].(phase := phase)]
  }

  lemma RunOne(cfg: Settings, s: State, a: Step)
    ensures Run(cfg, s, [a]) == Apply(cfg, s, a)
  {
    assert [a][1..] == [];
  }

  lemma RunMore(cfg: Settings, s: State, a: Step, more: seq<Step>)
    ensures Run(cfg, s, [a] + more) == Run(cfg, Apply(cfg, s, a), more)
  {
    assert ([a] + more)[1..] == more;
  }

  lemma ClaimGoes(cfg: Settings, s: State, c: int)
    requires c in s.copies && s.copies[c].phase.ClockRead? && s.now <= s.copies[c].phase.deadline
    requires ClaimRow(Some(s.job), s.copies[c].phase.read, cfg).Granted?
    ensures var row, p := ClaimRow(Some(s.job), s.copies[c].phase.read, cfg).row, s.copies[c].phase;
            var t := Apply(cfg, s, Claim(c));
            && t == s.(job := row, copies := t.copies) && At(t, c, p.deadline, row.attempts, Claimed)
            && t.copies.Keys == s.copies.Keys && forall d | d in s.copies && d != c :: t.copies[d] == s.copies[d]
  {
  }

  function GuardSteps(c: int, first: bool): seq<Step> {
    [Guard(c)] + if first then [Insert(c)] else []
  }

  lemma GuardGoes(cfg: Settings, s: State, c: int, deadline: int, n: nat)
    requires At(s, c, deadline, n, Claimed) && s.job.kind == EmailNotification && s.job.payloadOk
    requires s.delivery.None? || s.delivery.value.status == RetryableFailure
    ensures var tries := if s.delivery.None? then 1 else s.delivery.value.attempts + 1;
            var sentAt := if s.delivery.None? then None else s.delivery.value.deliveredAt;
            Run(cfg, s, GuardSteps(c, s.delivery.None?))
            == s.(delivery := Some(Delivery(DeliveryStatus.Sending, tries, sentAt)),
            passed := s.passed + {n}, copies := Put(s, c, Executing(deadline, n, Guarded)))
  {
    var t := Apply(cfg, s, Guard(c));
    RunOne(cfg, s, Guard(c));
    if s.delivery.None? {
      assert t == s.(copies := Put(s, c, Executing(deadline, n, NoRowSeen)));
      RunMore(cfg, s, Guard(c), [Insert(c)]);
      RunOne(cfg, t, Insert(c));
    }
  }

  function EndSteps(c: int, succeeds: bool): seq<Step> {
    if succeeds then [StartSend(c), SendReturns(c), RecordSent(c)]
    else [StartSend(c), SendRaises(c), RecordRaise(c), RecordRetry(c)]
  }

  lemma SendGoes(cfg: Settings, s: State, c: int, deadline: int, n: nat)
    requires At(s, c, deadline, n, Guarded) && s.delivery.Some?
    ensures Run(cfg, s, EndSteps(c, true))
         == s.(job := SucceedRow(s.job, s.now, DeliverySent), sends := s.sends + [Returned],
            delivery := Some(s.delivery.value.(status := Sent, deliveredAt := Some(s.now))),
            copies := Put(s, c, Gone))
  {
    var s1, s2 := Apply(cfg, s, StartSend(c)), Apply(cfg, Apply(cfg, s, StartSend(c)), SendReturns(c));
    RunMore(cfg, s, StartSend(c), [SendReturns(c), RecordSent(c)]);
    RunMore(cfg, s1, SendReturns(c), [RecordSent(c)]);
    RunOne(cfg, s2, RecordSent(c));
    assert s1 == s.(sends := s.sends + [Unknown], copies := Put(s, c, Executing(deadline, n, InSend(|s.sends|))));
    assert s2 == s.(sends := s.sends + [Returned],
                 copies := Put(s, c, Executing(deadline, n, SendReturned(|s.sends|))));
  }

  lemma RetryGoes(cfg: Settings, s: State, c: int, deadline: int, n: nat)
    requires At(s, c, deadline, n, Erring)
    ensures var t := Apply(cfg, s, RecordRetry(c));
            var back := Queued(s.now + Backoff.RetryDelay(cfg.retryBase, cfg.retryMax, n) * SECOND);
            && t == s.(job := RetryRow(s.job, n, s.now), copies := t.copies)
            && t.copies.Keys == s.copies.Keys && t.copies[c].phase == (if n < s.job.maxAttempts then back else Gone)
            && forall d | d in s.copies && d != c :: t.copies[d] == s.copies[d]
  {
  }

  lemma RaiseRecorded(cfg: Settings, s: State, c: int, deadline: int, n: nat)
    requires At(s, c, deadline, n, Guarded) && s.delivery.Some?
    ensures Apply(cfg, Apply(cfg, Apply(cfg, s, StartSend(c)), SendRaises(c)), RecordRaise(c))
         == s.(sends := s.sends + [RaisedAndRecorded], copies := Put(s, c, Executing(deadline, n, Erring)),
            delivery := Some(s.delivery.value.(status := RetryableFailure)))
  {
    var s1 := Apply(cfg, s, StartSend(c));
    var s2 := Apply(cfg, s1, SendRaises(c));
    assert s1 == s.(sends := s.sends + [Unknown], copies := Put(s, c, Executing(deadline, n, InSend(|s.sends|))));
    assert s2 == s.(sends := s.sends + [Raised], copies := Put(s, c, Executing(deadline, n, SendRaised(|s.sends|))));
  }

  lemma RaiseGoes(cfg: Settings, s: State, c: int, deadline: int, n: nat)
    requires At(s, c, deadline, n, Guarded) && s.delivery.Some?
    ensures var t := Run(cfg, s, EndSteps(c, false));
            var back := Queued(s.now + Backoff.RetryDelay(cfg.retryBase, cfg.retryMax, n) * SECOND);
            && t == s.(job := RetryRow(s.job, n, s.now), sends := s.sends + [RaisedAndRecorded],
                    delivery := Some(s.delivery.value.(status := RetryableFailure)), copies := t.copies)
            && t.copies.Keys == s.copies.Keys && t.copies[c].phase == (if n < s.job.maxAttempts then back else Gone)
            && forall d | d in s.copies && d != c :: t.copies[d] == s.copies[d]
  {
    hide Apply, Run, RetryRow, Backoff.RetryDelay;
    var s1 := Apply(cfg, s, StartSend(c));
    var s2 := Apply(cfg, s1, SendRaises(c));
    var s3 := Apply(cfg, s2, RecordRaise(c));
    assert EndSteps(c, false) == [StartSend(c)] + [SendRaises(c), RecordRaise(c), RecordRetry(c)];
    assert [SendRaises(c), RecordRaise(c), RecordRetry(c)] == [SendRaises(c)] + [RecordRaise(c), RecordRetry(c)];
    assert [RecordRaise(c), RecordRetry(c)] == [RecordRaise(c)] + [RecordRetry(c)];
    RunMore(cfg, s, StartSend(c), [SendRaises(c), RecordRaise(c), RecordRetry(c)]);
    RunMore(cfg, s1, SendRaises(c), [RecordRaise(c), RecordRetry(c)]);
    RunMore(cfg, s2, RecordRaise(c), [RecordRetry(c)]);
    RunOne(cfg, s3, RecordRetry(c));
    RaiseRecorded(cfg, s, c, deadline, n);
    RetryGoes(cfg, s3, c, deadline, n);
  }

  /** Claimed and past the guard: the one commit that lets the mail go out. */
  lemma PastGuard(cfg: Settings, s: State, c: int, more: seq<Step>, row: Job) returns (guarded: State)
    requires c in s.copies && s.copies[c].phase.ClockRead? && s.now <= s.copies[c].phase.deadline
    requires ClaimRow(Some(s.job), s.copies[c].phase.read, cfg) == Granted(row)
    requires row.kind == EmailNotification && row.payloadOk
    requires s.delivery.None? || s.delivery.value.status == RetryableFailure
    ensures Run(cfg, s, [Claim(c)] + (GuardSteps(c, s.delivery.None?) + more)) == Run(cfg, guarded, more)
    ensures guarded.job == row && guarded.sends == s.sends && guarded.now == s.now
    ensures At(guarded, c, s.copies[c].phase.deadline, row.attempts, Guarded)
    ensures guarded.copies.Keys == s.copies.Keys && forall d | d in s.copies && d != c ::
              guarded.copies[d] == s.copies[d]
    ensures guarded.delivery == Some(Delivery(DeliveryStatus.Sending,
                                              if s.delivery.None? then 1 else s.delivery.value.attempts + 1,
                                              if s.delivery.None? then None else s.delivery.value.deliveredAt))
  {
    hide Apply, Run;
    var guard := GuardSteps(c, s.delivery.None?);
    ClaimGoes(cfg, s, c);
    RunMore(cfg, s, Claim(c), guard + more);
    RunAppend(cfg, Apply(cfg, s, Claim(c)), guard, more);
    GuardGoes(cfg, Apply(cfg, s, Claim(c)), c, s.copies[c].phase.deadline, row.attempts);
    guarded := Run(cfg, Apply(cfg, s, Claim(c)), guard);
  }

  lemma MailChecked(cfg: Settings, s: State, c: int, deadline: int, n: nat)
    requires At(s, c, deadline, n, Claimed) && s.job.kind == EmailNotification
    requires s.job.payloadOk ==> s.delivery.Some? && s.delivery.value.status != RetryableFailure
    ensures var t := Apply(cfg, Apply(cfg, s, Guard(c)), RecordFailure(c));
            && c in t.copies && t.copies[c].phase == Gone && t.sends == s.sends && t.now == s.now
            && (!s.job.payloadOk ==> t.delivery == s.delivery && t.job == FailRow(s.job, s.now, InvalidPayload))
            && (s.job.payloadOk && s.delivery.value.status == Sent ==>
                  t.delivery == s.delivery && t.job == SucceedRow(s.job, s.now, DeliverySent))
            && (s.job.payloadOk && s.delivery.value.status != Sent ==>
                  && t.delivery == Some(s.delivery.value.(status := AmbiguousFailure))
                  && t.job == FailRow(s.job, s.now, DeliveryAmbiguous))
  {
  }

  lemma ExportEnds(cfg: Settings, s: State, c: int, deadline: int, n: nat, outcome: ExportOutcome)
    requires At(s, c, deadline, n, Claimed) && s.job.kind == TicketExport
    ensures var t := Apply(cfg, Apply(cfg, s, Export(c, outcome)), RecordFailure(c));
            && c in t.copies && t.copies[c].phase == Gone && t.sends == s.sends && t.now == s.now
            && t.delivery == s.delivery
            && t.job == (if outcome.Written? then SucceedRow(s.job, s.now, ExportFile(outcome.rowCount))
                         else FailRow(s.job, s.now, ExportRejected))
  {
  }

  function SendSteps(c: int, first: bool, succeeds: bool): seq<Step> {
    [Claim(c)] + (GuardSteps(c, first) + EndSteps(c, succeeds))
  }

  /** A worker whose claim is granted and whose mail may go out, left alone, the mail server taking the mail: one
      more send, and job and delivery say that it went; no other copy has moved. */
  lemma UndisturbedSendReturns(cfg: Settings, s: State, c: int)
    requires c in s.copies && s.copies[c].phase.ClockRead? && s.now <= s.copies[c].phase.deadline
    requires ClaimRow(Some(s.job), s.copies[c].phase.read, cfg).Granted?
    requires s.job.kind == EmailNotification && s.job.payloadOk
    requires s.delivery.None? || s.delivery.value.status == RetryableFailure
    ensures var t := Run(cfg, s, SendSteps(c, s.delivery.None?, true));
            && t.sends == s.sends + [Returned]
            && t.now == s.now && t.copies.Keys == s.copies.Keys
            && (forall d | d in s.copies && d != c :: t.copies[d] == s.copies[d])
            && t.delivery == Some(Delivery(Sent, 1 + (if s.delivery.Some? then s.delivery.value.attempts else 0),
                                           Some(s.now)))
            && t.job.status == Succeeded && t.job.attempts == s.job.attempts + 1 && t.job.lease == None
            && t.job.error == None && t.job.result == Some(DeliverySent) && t.job.completedAt == Some(s.now)
            && t.copies[c].phase == Gone
  {
    hide Apply, Run, ClaimRow, Backoff.RetryDelay;
    var p, row := s.copies[c].phase, ClaimRow(Some(s.job), s.copies[c].phase.read, cfg).row;
    ClaimedExactlyWhen(s.job, p.read, cfg);
    var guarded := PastGuard(cfg, s, c, EndSteps(c, true), row);
    SendGoes(cfg, guarded, c, p.deadline, row.attempts);
  }

  /** The same with the mail server raising: the raise is recorded, and the job comes back after its delay exactly
      when attempts are left; otherwise it has failed. */
  lemma UndisturbedSendRaises(cfg: Settings, s: State, c: int)
    requires c in s.copies && s.copies[c].phase.ClockRead? && s.now <= s.copies[c].phase.deadline
    requires ClaimRow(Some(s.job), s.copies[c].phase.read, cfg).Granted?
    requires s.job.kind == EmailNotification && s.job.payloadOk
    requires s.delivery.None? || s.delivery.value.status == RetryableFailure
    ensures var t := Run(cfg, s, SendSteps(c, s.delivery.None?, false));
            var again := s.job.attempts + 1 < s.job.maxAttempts;
            var delay := Backoff.RetryDelay(cfg.retryBase, cfg.retryMax, s.job.attempts + 1);
            && t.sends == s.sends + [RaisedAndRecorded]
            && t.now == s.now && t.copies.Keys == s.copies.Keys
            && (forall d | d in s.copies && d != c :: t.copies[d] == s.copies[d])
            && t.delivery == Some(Delivery(RetryableFailure,
                                           1 + (if s.delivery.Some? then s.delivery.value.attempts else 0),
                                           if s.delivery.Some? then s.delivery.value.deliveredAt else None))
            && t.job.status == (if again then Retrying else Failed)
            && t.job.attempts == s.job.attempts + 1 && t.job.lease == None
            && t.job.error == Some(ExecutionFailed) && t.job.result == s.job.result
            && t.job.completedAt == (if again then s.job.completedAt else Some(s.now))
            && t.copies[c].phase == if again then Queued(s.now + delay * SECOND) else Gone
  {
    hide Apply, Run, ClaimRow, Backoff.RetryDelay;
    var p, row := s.copies[c].phase, ClaimRow(Some(s.job), s.copies[c].phase.read, cfg).row;
    ClaimedExactlyWhen(s.job, p.read, cfg);
    var guarded := PastGuard(cfg, s, c, EndSteps(c, false), row);
    RaiseGoes(cfg, guarded, c, p.deadline, row.attempts);
  }

  function CheckStep(c: int, kind: JobKind, outcome: ExportOutcome): Step {
    if kind == EmailNotification then Guard(c) else Export(c, outcome)
  }

  /** The executions that send nothing, left alone: an email without payload fails, one whose mail is out
      succeeds, one whose mail may be out fails and marks the delivery; an export ends as its file does. */
  lemma UndisturbedWithoutSend(cfg: Settings, s: State, c: int, outcome: ExportOutcome)
    requires c in s.copies && s.copies[c].phase.ClockRead? && s.now <= s.copies[c].phase.deadline
    requires ClaimRow(Some(s.job), s.copies[c].phase.read, cfg).Granted?
    requires s.job.kind == EmailNotification && s.job.payloadOk ==>
               s.delivery.Some? && s.delivery.value.status != RetryableFailure
    ensures var t := Run(cfg, s, [Claim(c), CheckStep(c, s.job.kind, outcome), RecordFailure(c)]);
            var email, bad := s.job.kind == EmailNotification, !s.job.payloadOk;
            var succeeded := if email then !bad && s.delivery.value.status == Sent else outcome.Written?;
            && t.sends == s.sends && t.now == s.now && c in t.copies && t.copies[c].phase == Gone
            && t.delivery == (if email && !bad && !succeeded then
                                Some(s.delivery.value.(status := AmbiguousFailure))
                              else s.delivery)
            && t.job.status == (if succeeded then Succeeded else Failed) && t.job.completedAt == Some(s.now)
            && t.job.attempts == s.job.attempts + 1 && t.job.lease == None
            && t.job.result == (if !succeeded then s.job.result
                                else Some(if email then DeliverySent else ExportFile(outcome.rowCount)))
            && t.job.error == (if succeeded then None
                               else Some(if !email then ExportRejected
                                         else if bad then InvalidPayload else DeliveryAmbiguous))
  {
    var row := ClaimRow(Some(s.job), s.copies[c].phase.read, cfg).row;
    var check := CheckStep(c, s.job.kind, outcome);
    ClaimedExactlyWhen(s.job, s.copies[c].phase.read, cfg);
    hide ClaimRow, Run;
    var claimed := Apply(cfg, s, Claim(c));
    ClaimGoes(cfg, s, c);
    RunMore(cfg, s, Claim(c), [check, RecordFailure(c)]);
    hide Apply;
    RunMore(cfg, claimed, check, [RecordFailure(c)]);
    RunOne(cfg, Apply(cfg, claimed, check), RecordFailure(c));
    if s.job.kind == EmailNotification {
      MailChecked(cfg, claimed, c, s.copies[c].phase.deadline, row.attempts);
    } else {
      ExportEnds(cfg, claimed, c, s.copies[c].phase.deadline, row.attempts, outcome);
    }
  }

  // ---- what may happen to a worker at any time -----------------------------------------------------

  predicate Held(phase: Phase) {
    phase.Started? || phase.ClockRead? || phase.Executing?
  }

  /** Whatever a worker is doing it may die, and its copy is put back or lost; outside the send call any
      exception may strike it; time passes and messages arrive at any moment. */
  lemma AnythingMayHappen(cfg: Settings, s: State, c: int, redelivered: bool, elapsed: nat)
    ensures Apply(cfg, s, Tick(elapsed)) == s.(now := s.now + elapsed)
    ensures c !in s.copies ==> Apply(cfg, s, Deliver(c)) == s.(copies := s.copies[c := Copy(Queued(s.now), 0, 0, 0, 0)])
    ensures c in s.copies && Held(s.copies[c].phase) ==>
              Apply(cfg, s, Crash(c, redelivered)) == s.(copies := Put(s, c, if redelivered then Queued(s.now)
                                                                       else Gone))
    ensures c in s.copies && s.copies[c].phase.Queued? && s.copies[c].phase.notBefore <= s.now ==>
              Apply(cfg, s, Start(c)) == s.(copies := Put(s, c, Started(s.now + cfg.hardLimitSeconds * SECOND)))
    ensures c in s.copies && s.copies[c].phase.Started? && s.now <= s.copies[c].phase.deadline ==>
              Apply(cfg, s, ReadClock(c)) == s.(copies := Put(s, c, ClockRead(s.copies[c].phase.deadline, s.now)))
    ensures Alive(s, c) && !StageOf(s, c).InSend? && !StageOf(s, c).Failing? ==>
              Apply(cfg, s, Fault(c))
              == s.(copies := Put(s, c, Executing(s.copies[c].phase.deadline, AttemptOf(s, c), Erring)))
    ensures Alive(s, c) && (StageOf(s, c).InSend? || StageOf(s, c).Failing?) ==> Apply(cfg, s, Fault(c)) == s
  {
  }

  /** A worker past its deadline, and a copy that is done, do nothing more. */
  lemma TheDeadDoNothing(cfg: Settings, s: State, step: Step)
    requires !step.Tick? && !step.Deliver? && !step.Crash? && step.c in s.copies
    requires match s.copies[step.c].phase
             case Queued(notBefore) => s.now < notBefore || !step.Start?
             case Started(deadline) => deadline < s.now || !step.ReadClock?
             case ClockRead(deadline, _) => deadline < s.now || !step.Claim?
             case Executing(deadline, _, _) => deadline < s.now
             case Gone => true
    ensures Apply(cfg, s, step) == s
  {
  }
}
