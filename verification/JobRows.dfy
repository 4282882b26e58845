/** The two rows a background job owns, and what each commit of the executor does to them.

    The functions say what one commit makes of the rows; class `BackgroundJobExecutor` performs the
    same commits on mutable tables, field by field, and is proved against them. */
module JobRows {
  import opened Common
  import Backoff

  datatype Settings = Settings(leaseSeconds: nat, hardLimitSeconds: nat, retryBase: nat, retryMax: nat)

  datatype JobKind = EmailNotification | TicketExport

  datatype JobStatus = Pending | Running | Retrying | Succeeded | Failed

  datatype JobError =
    | AttemptsExhausted
    | InvalidPayload
    | DeliveryAmbiguous
    | DeliveryMissing
    | ExportRejected
    | ExecutionFailed

  datatype JobResult = DeliverySent | ExportFile(rowCount: nat)

  datatype Job = Job(
    kind: JobKind,
    payloadOk: bool,
    status: JobStatus,
    attempts: nat,
    maxAttempts: nat,
    startedAt: Option<int>,
    lease: Option<int>,
    completedAt: Option<int>,
    result: Option<JobResult>,
    error: Option<JobError>)

  datatype DeliveryStatus = Sending | Sent | RetryableFailure | AmbiguousFailure

  datatype Delivery = Delivery(status: DeliveryStatus, attempts: nat, deliveredAt: Option<int>)

  predicate Terminal(status: JobStatus) {
    status == Succeeded || status == Failed
  }

  function NewJob(kind: JobKind, payloadOk: bool, maxAttempts: nat): Job {
    Job(kind, payloadOk, Pending, 0, maxAttempts, None, None, None, None, None)
  }

  // ---- claiming ------------------------------------------------------------------------------

  datatype ClaimOutcome =
    | NotClaimable
    | LeaseActive(retryAfter: int)
    | Exhausted(row: Job)
    | Granted(row: Job)

  /** Whole seconds to wait before trying again, from the remaining lease. */
  function RetryAfter(remaining: int): int
    requires remaining > 0
  {
    Max(1, remaining / SECOND + 1)
  }

  /** The wait strictly outlasts the lease, and by at most one second. */
  lemma RetryAfterOutlastsLease(remaining: int)
    requires remaining > 0
    ensures remaining < RetryAfter(remaining) * 1_000_000 <= remaining + 1_000_000
  {
  }

  function ClaimRow(found: Option<Job>, now: int, cfg: Settings): ClaimOutcome {
    if found.None? || Terminal(found.value.status) then
      NotClaimable
    else
      var job := found.value;
      if job.status == Running && job.lease.Some? && job.lease.value > now then
        LeaseActive(RetryAfter(job.lease.value - now))
      else if job.attempts >= job.maxAttempts then
        Exhausted(job.(status := Failed, error := Some(AttemptsExhausted), completedAt := Some(now), lease := None))
      else
        Granted(job.(
                status := Running,
                attempts := job.attempts + 1,
                startedAt := if job.startedAt.Some? then job.startedAt else Some(now),
                lease := Some(now + cfg.leaseSeconds * SECOND),
                error := None))
  }

  /** Which answer a claim gets, and what it writes: a finished row is left alone, a running one is until its
      lease has passed, and the others are taken as long as attempts are left. */
  lemma ClaimedExactlyWhen(job: Job, now: int, cfg: Settings)
    ensures ClaimRow(None, now, cfg) == NotClaimable
    ensures var r := ClaimRow(Some(job), now, cfg);
            var leased := job.status == Running && job.lease.Some? && now < job.lease.value;
            && (r == NotClaimable <==> job.status == Succeeded || job.status == Failed)
            && (r.LeaseActive? <==> leased)
            && (r.Granted? <==>
                job.status != Succeeded && job.status != Failed && !leased && job.attempts < job.maxAttempts)
            && (r.LeaseActive? ==> now + r.retryAfter * SECOND > job.lease.value)
            && (r.Granted? ==>
                  && r.row.status == Running && r.row.attempts == job.attempts + 1 && r.row.error == None
                  && r.row.lease == Some(now + cfg.leaseSeconds * SECOND)
                  && r.row.startedAt == Some(if job.startedAt.Some? then job.startedAt.value else now)
                  && r.row.kind == job.kind && r.row.payloadOk == job.payloadOk && r.row.maxAttempts == job.maxAttempts
                  && r.row.completedAt == job.completedAt && r.row.result == job.result)
            && (r.Exhausted? ==>
                  && job.attempts >= job.maxAttempts
                  && r.row.status == Failed && r.row.error == Some(AttemptsExhausted) && r.row.lease == None
                  && r.row.completedAt == Some(now) && r.row.result == job.result && r.row.startedAt == job.startedAt
                  && r.row.kind == job.kind && r.row.payloadOk == job.payloadOk
                  && r.row.attempts == job.attempts && r.row.maxAttempts == job.maxAttempts)
  {
    if job.status == Running && job.lease.Some? && now < job.lease.value {
      RetryAfterOutlastsLease(job.lease.value - now);
    }
  }

  // ---- finishing -----------------------------------------------------------------------------

  function SucceedRow(job: Job, now: int, result: JobResult): Job {
    job.(status := Succeeded, result := Some(result), error := None, completedAt := Some(now), lease := None)
  }

  function FailRow(job: Job, now: int, error: JobError): Job {
    job.(status := Failed, error := Some(error), completedAt := Some(now), lease := None)
  }

  /** `attempt` is the attempt number the worker remembers from its own claim. */
  predicate RetriesLeft(job: Job, attempt: nat) {
    attempt < job.maxAttempts
  }

  function RetryRow(job: Job, attempt: nat, now: int): Job {
    var j := job.(error := Some(ExecutionFailed), lease := None);
    if RetriesLeft(job, attempt) then j.(status := Retrying) else j.(status := Failed, completedAt := Some(now))
  }

  /** What each kind of end writes: status, result or error, time, and no lease; the claim's columns stay. */
  lemma EndedByColumns(job: Job, now: int, result: JobResult, error: JobError, attempt: nat)
    ensures forall ended | ended in {SucceedRow(job, now, result), FailRow(job, now, error),
                                     RetryRow(job, attempt, now)} ::
              && ended.lease == None && ended.kind == job.kind && ended.payloadOk == job.payloadOk
              && ended.attempts == job.attempts && ended.maxAttempts == job.maxAttempts
              && ended.startedAt == job.startedAt
    ensures var done := SucceedRow(job, now, result);
            done.status == Succeeded && done.result == Some(result) && done.error == None
            && done.completedAt == Some(now)
    ensures var failed := FailRow(job, now, error);
            && failed.status == Failed && failed.error == Some(error) && failed.completedAt == Some(now)
            && failed.result == job.result
    ensures var raised := RetryRow(job, attempt, now);
            && raised.error == Some(ExecutionFailed) && raised.result == job.result
            && raised.status == (if attempt < job.maxAttempts then Retrying else Failed)
            && raised.completedAt == (if attempt < job.maxAttempts then job.completedAt else Some(now))
  {
  }

  // ---- the delivery guard --------------------------------------------------------------------

  datatype GuardOutcome = AlreadySent | Suppressed(row: Delivery) | NoDelivery | Resumed(row: Delivery)

  /** What a worker that holds the lock on the delivery row (if there is one) does with it. */
  function GuardRow(delivery: Option<Delivery>): GuardOutcome {
    match delivery
    case None => NoDelivery
    case Some(d) =>
      match d.status
      case Sent => AlreadySent
      case Sending => Suppressed(d.(status := AmbiguousFailure))
      case AmbiguousFailure => Suppressed(d.(status := AmbiguousFailure))
      case RetryableFailure => Resumed(d.(status := Sending, attempts := d.attempts + 1))
  }

  const FIRST_DELIVERY := Delivery(Sending, 1, None)

  datatype WorkerOutcome = Idle | Owner(attempt: nat) | Deferred(retryAfter: int)

  datatype SendPermission = MaySend | Complete | Refused(error: JobError)

  /** The job and delivery tables, updated in place one commit at a time. */
  class BackgroundJobExecutor {
    const cfg: Settings
    var jobs: map<int, Job>
    var deliveries: map<int, Delivery>

    constructor (cfg: Settings)
      ensures this.cfg == cfg && jobs == map[] && deliveries == map[]
    {
      this.cfg := cfg;
      jobs, deliveries := map[], map[];
    }

    function Find(id: int): (found: Option<Job>)
      reads this
      ensures found.Some? <==> id in jobs
      ensures found.Some? ==> found.value == jobs[id]
    {
      if id in jobs then Some(jobs[id]) else None
    }

    function FindDelivery(id: int): (found: Option<Delivery>)
      reads this
      ensures found.Some? <==> id in deliveries
      ensures found.Some? ==> found.value == deliveries[id]
    {
      if id in deliveries then Some(deliveries[id]) else None
    }

    method Claim(id: int, now: int) returns (r: WorkerOutcome)
      modifies this`jobs
      ensures match ClaimRow(old(Find(id)), now, cfg)
              case NotClaimable => jobs == old(jobs) && r == Idle
              case LeaseActive(after) => jobs == old(jobs) && r == Deferred(after)
              case Exhausted(row) => jobs == old(jobs)[id := row] && r == Idle
              case Granted(row) => jobs == old(jobs)[id := row] && r == Owner(row.attempts)
    {
      if id !in jobs || jobs[id].status in {Succeeded, Failed} {
        return Idle;
      }
      var job := jobs[id];
      if job.status == Running && job.lease.Some? && job.lease.value > now {
        return Deferred(Max(1, (job.lease.value - now) / SECOND + 1));
      }
      if job.attempts >= job.maxAttempts {
        job := job.(status := Failed);
        job := job.(error := Some(AttemptsExhausted));
        job := job.(completedAt := Some(now));
        job := job.(lease := None);
        jobs := jobs[id := job];
        return Idle;
      }
      job := job.(status := Running);
      job := job.(attempts := job.attempts + 1);
      if job.startedAt.None? {
        job := job.(startedAt := Some(now));
      }
      job := job.(lease := Some(now + cfg.leaseSeconds * SECOND));
      job := job.(error := None);
      jobs := jobs[id := job];
      r := Owner(job.attempts);
    }

    method MarkSucceeded(id: int, now: int, result: JobResult)
      requires id in jobs
      modifies this`jobs
      ensures jobs == old(jobs)[id := SucceedRow(old(jobs)[id], now, result)]
    {
      var job := jobs[id].(status := Succeeded);
      job := job.(result := Some(result));
      job := job.(error := None);
      job := job.(completedAt := Some(now));
      job := job.(lease := None);
      jobs := jobs[id := job];
    }

    method MarkFailed(id: int, now: int, error: JobError)
      requires id in jobs
      modifies this`jobs
      ensures jobs == old(jobs)[id := FailRow(old(jobs)[id], now, error)]
    {
      var job := jobs[id].(status := Failed);
      job := job.(error := Some(error));
      job := job.(completedAt := Some(now));
      job := job.(lease := None);
      jobs := jobs[id := job];
    }

    method MarkRetryableFailure(id: int, attempt: nat, now: int) returns (shouldRetry: bool)
      requires id in jobs
      modifies this`jobs
      ensures jobs == old(jobs)[id := RetryRow(old(jobs)[id], attempt, now)]
      ensures shouldRetry <==> attempt < old(jobs)[id].maxAttempts
      ensures jobs[id].status == (if attempt < old(jobs)[id].maxAttempts then Retrying else Failed)
      ensures jobs[id].error == Some(ExecutionFailed) && jobs[id].lease == None
      ensures jobs[id].completedAt == (if shouldRetry then old(jobs)[id].completedAt else Some(now))
    {
      var job := jobs[id].(error := Some(ExecutionFailed));
      job := job.(lease := None);
      if attempt >= job.maxAttempts {
        job := job.(status := Failed);
        job := job.(completedAt := Some(now));
        shouldRetry := false;
      } else {
        job := job.(status := Retrying);
        shouldRetry := true;
      }
      jobs := jobs[id := job];
    }

    /** The part of an email execution before the send, when nothing intervenes. */
    method PassDeliveryGuard(id: int, now: int) returns (r: SendPermission)
      requires id in jobs
      modifies this`jobs, this`deliveries
      ensures !old(jobs)[id].payloadOk ==>
                jobs == old(jobs) && deliveries == old(deliveries) && r == Refused(InvalidPayload)
      ensures old(jobs)[id].payloadOk ==>
                match GuardRow(old(FindDelivery(id)))
                case AlreadySent =>
                  && jobs == old(jobs)[id := SucceedRow(old(jobs)[id], now, DeliverySent)]
                  && deliveries == old(deliveries) && r == Complete
                case Suppressed(row) =>
                  jobs == old(jobs) && deliveries == old(deliveries)[id := row] && r == Refused(DeliveryAmbiguous)
                case NoDelivery =>
                  jobs == old(jobs) && deliveries == old(deliveries)[id := FIRST_DELIVERY] && r == MaySend
                case Resumed(row) =>
                  jobs == old(jobs) && deliveries == old(deliveries)[id := row] && r == MaySend
    {
      if !jobs[id].payloadOk {
        return Refused(InvalidPayload);
      }
      if id in deliveries && deliveries[id].status == Sent {
        MarkSucceeded(id, now, DeliverySent);
        return Complete;
      }
      if id in deliveries && deliveries[id].status in {Sending, AmbiguousFailure} {
        deliveries := deliveries[id := deliveries[id].(status := AmbiguousFailure)];
        return Refused(DeliveryAmbiguous);
      }
      if id !in deliveries {
        deliveries := deliveries[id := Delivery(Sending, 1, None)];
      } else {
        var delivery := deliveries[id].(status := Sending);
        delivery := delivery.(attempts := delivery.attempts + 1);
        deliveries := deliveries[id := delivery];
      }
      r := MaySend;
    }

    /** One undisturbed email execution from claim to final commit, for a given answer of the mail
        server: it never sends a mail whose outcome might already be out, it leaves the job row in a
        finished or retrying state, and whether the caller is asked to redeliver is exactly whether
        attempts are left. */
    method ExecuteEmail(id: int, now: int, sendSucceeds: bool)
      returns (started: bool, redeliverAfter: Option<int>)
      requires id in jobs ==> jobs[id].kind == EmailNotification
      modifies this`jobs, this`deliveries
      ensures forall other :: other != id ==>
                                && (other in jobs <==> other in old(jobs))
                                && (other in old(jobs) ==> jobs[other] == old(jobs)[other])
                                && (other in deliveries <==> other in old(deliveries))
                                && (other in old(deliveries) ==> deliveries[other] == old(deliveries)[other])
      ensures ClaimRow(old(Find(id)), now, cfg).NotClaimable? ==>
                jobs == old(jobs) && deliveries == old(deliveries) && !started && redeliverAfter == None
      ensures ClaimRow(old(Find(id)), now, cfg).LeaseActive? ==>
                jobs == old(jobs) && deliveries == old(deliveries) && !started
                && redeliverAfter == Some(ClaimRow(old(Find(id)), now, cfg).retryAfter)
      ensures ClaimRow(old(Find(id)), now, cfg).Exhausted? ==>
                deliveries == old(deliveries) && !started && redeliverAfter == None
                && jobs == old(jobs)[id := ClaimRow(old(Find(id)), now, cfg).row]
      ensures ClaimRow(old(Find(id)), now, cfg).Granted? ==>
                var granted := ClaimRow(old(Find(id)), now, cfg).row;
                var before := old(FindDelivery(id));
                var succeeded := granted.payloadOk && (if started then sendSucceeds
                                                       else before.Some? && before.value.status == Sent);
                var again := started && !sendSucceeds && old(jobs)[id].attempts + 1 < old(jobs)[id].maxAttempts;
                && id in jobs
                && (started <==> granted.payloadOk && (before == None || before.value.status == RetryableFailure))
                && (started ==>
                      && id in deliveries
                      && deliveries[id].attempts == 1 + (if before.Some? then before.value.attempts else 0)
                      && deliveries[id].status == (if sendSucceeds then Sent else RetryableFailure)
                      && deliveries[id].deliveredAt == (if sendSucceeds then Some(now)
                                                        else if before.Some? then before.value.deliveredAt else None))
                && (!started ==>
                      FindDelivery(id) == (if granted.payloadOk && before.value.status != Sent
                                           then Some(before.value.(status := AmbiguousFailure)) else before))
                && jobs[id] == old(jobs)[id].(
                               status := if succeeded then Succeeded else if again then Retrying else Failed,
                               attempts := old(jobs)[id].attempts + 1,
                               startedAt := if old(jobs)[id].startedAt.Some? then old(jobs)[id].startedAt
                               else Some(now),
                                    lease := None,
                                    completedAt := if again then old(jobs)[id].completedAt else Some(now),
                                    result := if succeeded then Some(DeliverySent) else old(jobs)[id].result,
                                    error := if succeeded then None
                                    else if !granted.payloadOk then Some(InvalidPayload)
                                    else if started then Some(ExecutionFailed) else Some(DeliveryAmbiguous))
                && redeliverAfter == (if jobs[id].status == Retrying
                                      then Some(Backoff.RetryDelay(cfg.retryBase, cfg.retryMax, granted.attempts))
                                      else None)
    {
      hide Backoff.RetryDelay, RetryAfter;
      started, redeliverAfter := false, None;
      var claim := Claim(id, now);
      if claim.Deferred? {
        return false, Some(claim.retryAfter);
      }
      if claim.Idle? {
        return;
      }
      var permission := PassDeliveryGuard(id, now);
      match permission
      case Complete =>
      case Refused(error) =>
        MarkFailed(id, now, error);
      case MaySend =>
        started := true;
        if sendSucceeds {
          deliveries := deliveries[id := deliveries[id].(status := Sent, deliveredAt := Some(now))];
          MarkSucceeded(id, now, DeliverySent);
        } else {
          deliveries := deliveries[id := deliveries[id].(status := RetryableFailure)];
          var again := MarkRetryableFailure(id, claim.attempt, now);
          if again {
            redeliverAfter := Some(Backoff.RetryDelay(cfg.retryBase, cfg.retryMax, claim.attempt));
          }
        }
    }
  }
}
