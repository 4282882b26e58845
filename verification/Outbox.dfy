/** The transactional outbox: one dispatcher run, as the loop it is, and any number of dispatchers that
    may die at any moment. */
module Outbox {
  import opened Common
  import opened KeyOrder
  import Backoff

  datatype Settings = Settings(batchSize: nat, retryBase: nat, retryMax: nat)

  datatype OutboxStatus = Pending | Published

  datatype Message = Message(
    jobId: int,
    createdAt: int,
    status: OutboxStatus,
    publishAttempts: nat,
    availableAt: int,
    publishedAt: Option<int>,
    lastError: Option<string>)

  type Table = map<int, Message>

  /** What one call of the publisher does: it is accepted at some instant, or raises. */
  datatype PublishOutcome = Accepted(at: int) | Raised(error: string)

  predicate Due(m: Message, now: int) {
    m.status == Pending && m.availableAt <= now
  }

  /** The due rows no other transaction holds, as (created_at, id) keys. */
  function DueKeys(table: Table, locked: set<int>, now: int): set<Key> {
    set id | id in table && id !in locked && Due(table[id], now) :: Key(table[id].createdAt, id)
  }

  function Ids(keys: seq<Key>): (ids: seq<int>)
    ensures |ids| == |keys| && forall i :: 0 <= i < |keys| ==> ids[i] == keys[i].id
  {
    seq(|keys|, i requires 0 <= i < |keys| => keys[i].id)
  }

  /** `list_pending_outbox`: due, unlocked, oldest first, at most `limit`. */
  function ListPending(table: Table, locked: set<int>, now: int, limit: nat): seq<int> {
    var keys := Sorted(false, DueKeys(table, locked, now));
    Ids(keys[..Min(limit, |keys|)])
  }

  function AfterPublish(m: Message, outcome: PublishOutcome, now: int, cfg: Settings): Message {
    var tried := m.(publishAttempts := m.publishAttempts + 1);
    match outcome
    case Accepted(at) => tried.(status := Published, publishedAt := Some(at), lastError := None)
    case Raised(error) =>
      tried.(lastError := Some(error),
      availableAt := now + Backoff.RetryDelay(cfg.retryBase, cfg.retryMax, tried.publishAttempts) * SECOND)
  }

  predicate NoDuplicates(ids: seq<int>) {
    forall i, j :: 0 <= i < j < |ids| ==> ids[i] != ids[j]
  }

  function RowKey(table: Table, id: int): Key
    requires id in table
  {
    Key(table[id].createdAt, id)
  }

  lemma BatchPositions(table: Table, locked: set<int>, now: int, limit: nat)
    ensures var batch := ListPending(table, locked, now, limit);
            var keys := Sorted(false, DueKeys(table, locked, now));
            && |batch| == Min(limit, |keys|)
            && forall i :: 0 <= i < |batch| ==>
                             batch[i] in table && batch[i] !in locked && Due(table[batch[i]], now)
                             && keys[i] == RowKey(table, batch[i])
  {
    var keys := Sorted(false, DueKeys(table, locked, now));
    SortedIsListing(false, DueKeys(table, locked, now));
    forall i | 0 <= i < |keys|
      ensures keys[i].id in table && keys[i].id !in locked && Due(table[keys[i].id], now)
              && keys[i] == RowKey(table, keys[i].id)
    {
      assert keys[i] in DueKeys(table, locked, now);
    }
  }

  /** The batch holds unlocked rows that are pending and whose time has come, oldest first, hence none twice. */
  lemma BatchIsDue(table: Table, locked: set<int>, now: int, limit: nat)
    ensures var batch := ListPending(table, locked, now, limit);
            && NoDuplicates(batch)
            && (forall id :: id in batch ==>
                               && id in table && id !in locked
                               && table[id].status == Pending && table[id].availableAt <= now)
            && (forall i, j :: 0 <= i < j < |batch| ==>
                                 || table[batch[i]].createdAt < table[batch[j]].createdAt
                                 || (table[batch[i]].createdAt == table[batch[j]].createdAt && batch[i] < batch[j]))
  {
    var batch := ListPending(table, locked, now, limit);
    var keys := Sorted(false, DueKeys(table, locked, now));
    BatchPositions(table, locked, now, limit);
    SortedIsListing(false, DueKeys(table, locked, now));
    forall i, j | 0 <= i < j < |batch|
      ensures Less(RowKey(table, batch[i]), RowKey(table, batch[j])) && batch[i] != batch[j]
    {
      assert Before(false, keys[i], keys[j]);
    }
  }

  /** The unlocked rows that are pending and whose time has come. */
  function DueIds(table: Table, locked: set<int>, now: int): set<int> {
    set id | id in table && id !in locked && table[id].status == Pending && table[id].availableAt <= now
  }

  lemma SubsetIsSmaller(a: set<int>, b: set<int>)
    requires a <= b
    ensures |a| <= |b| && (|a| == |b| ==> a == b)
  {
    assert b == a + (b - a);
  }

  /** As many of them as there are, up to the limit; every one left out is younger than every row taken. */
  lemma BatchIsOldest(table: Table, locked: set<int>, now: int, limit: nat)
    ensures var batch := ListPending(table, locked, now, limit);
            && |batch| == Min(limit, |DueIds(table, locked, now)|)
            && (forall id :: id in batch ==> id in table)
            && (forall id, other | id in batch && other in table && other !in batch && other !in locked
                                   && table[other].status == Pending && table[other].availableAt <= now
                  :: table[id].createdAt < table[other].createdAt
                     || (table[id].createdAt == table[other].createdAt && id < other))
  {
    BatchIsDue(table, locked, now, limit);
    BatchLeavesYounger(table, locked, now, limit);
    var batch := ListPending(table, locked, now, limit);
    var taken := set id | id in batch;
    DistinctCount(batch, taken);
    assert taken <= DueIds(table, locked, now);
    SubsetIsSmaller(taken, DueIds(table, locked, now));
    if |batch| < limit {
      assert forall id :: id in DueIds(table, locked, now) ==> id in batch;
      assert taken == DueIds(table, locked, now);
    }
  }

  lemma BatchLeavesYounger(table: Table, locked: set<int>, now: int, limit: nat)
    ensures var batch := ListPending(table, locked, now, limit);
            && |batch| <= limit && (forall id :: id in batch ==> id in table)
            && (forall other | other in DueIds(table, locked, now) && other !in batch :: |batch| == limit)
            && (forall id, other | id in batch && other in DueIds(table, locked, now) && other !in batch ::
                  Less(RowKey(table, id), RowKey(table, other)))
  {
    var batch := ListPending(table, locked, now, limit);
    var keys := Sorted(false, DueKeys(table, locked, now));
    BatchPositions(table, locked, now, limit);
    SortedIsListing(false, DueKeys(table, locked, now));
    forall other | other in DueIds(table, locked, now) && other !in batch
      ensures |batch| == limit && forall id | id in batch :: Less(RowKey(table, id), RowKey(table, other))
    {
      assert RowKey(table, other) in keys by {
        assert RowKey(table, other) in DueKeys(table, locked, now);
      }
      var j :| 0 <= j < |keys| && keys[j] == RowKey(table, other);
      assert forall k :: 0 <= k < |batch| ==> batch[k] != other;
      assert j >= |batch|;
      forall id | id in batch ensures Less(RowKey(table, id), RowKey(table, other)) {
        var i :| 0 <= i < |batch| && batch[i] == id;
        assert Before(false, keys[i], keys[j]);
      }
    }
  }

  /** A failed publish leaves the row pending, due again after a delay within `[base, max]` that never
      shrinks as attempts add up. */
  lemma FailedPublishBacksOff(m: Message, error: string, now: int, cfg: Settings)
    requires cfg.retryBase <= cfg.retryMax
    ensures var failed := AfterPublish(m, Raised(error), now, cfg);
            && failed.status == m.status && failed.jobId == m.jobId && failed.createdAt == m.createdAt
            && failed.publishAttempts == m.publishAttempts + 1 && failed.lastError == Some(error)
            && failed.publishedAt == m.publishedAt
            && now + cfg.retryBase * SECOND <= failed.availableAt <= now + cfg.retryMax * SECOND
            && failed.availableAt <= AfterPublish(failed, Raised(error), now, cfg).availableAt
            && (m.publishAttempts == 0 ==> failed.availableAt == now + cfg.retryBase * SECOND)
  {
    Backoff.RetryDelayShape(cfg.retryBase, cfg.retryMax, m.publishAttempts + 1, m.publishAttempts + 2);
  }

  /** An accepted one leaves it published at the broker's instant, without an error. */
  lemma AcceptedPublishIsFinal(m: Message, at: int, now: int, cfg: Settings)
    ensures var done := AfterPublish(m, Accepted(at), now, cfg);
            && done.status == Published && done.publishedAt == Some(at) && done.lastError == None
            && done.publishAttempts == m.publishAttempts + 1 && done.availableAt == m.availableAt
            && done.jobId == m.jobId && done.createdAt == m.createdAt
  {
  }

  /** Ids of the batch whose publish was accepted, in order. */
  function AcceptedIds(batch: seq<int>, outcome: int -> PublishOutcome): seq<int> {
    if batch == [] then [] else
    var most := AcceptedIds(batch[..|batch| - 1], outcome);
    var last := batch[|batch| - 1];
    if outcome(last).Accepted? then most + [last] else most
  }

  lemma {:induction false} AcceptedIdsAre(batch: seq<int>, outcome: int -> PublishOutcome)
    requires NoDuplicates(batch)
    ensures NoDuplicates(AcceptedIds(batch, outcome))
    ensures forall id :: id in AcceptedIds(batch, outcome) <==> id in batch && outcome(id).Accepted?
  {
    if batch != [] {
      var most := batch[..|batch| - 1];
      AcceptedIdsAre(most, outcome);
      assert batch == most + [batch[|batch| - 1]];
      assert batch[|batch| - 1] !in most;
    }
  }

  /** The table after every row of the batch has been tried once. */
  function AfterBatch(table: Table, batch: seq<int>, outcome: int -> PublishOutcome, now: int, cfg: Settings): Table {
    map id | id in table :: if id in batch then AfterPublish(table[id], outcome(id), now, cfg) else table[id]
  }

  lemma OneMoreInBatch(table: Table, batch: seq<int>, i: nat, outcome: int -> PublishOutcome, now: int, cfg: Settings)
    requires i < |batch| && NoDuplicates(batch) && batch[i] in table
    ensures AfterBatch(table, batch[..i], outcome, now, cfg)[batch[i]] == table[batch[i]]
    ensures AfterBatch(table, batch[..i + 1], outcome, now, cfg)
         == AfterBatch(table, batch[..i], outcome, now, cfg)
            [batch[i] := AfterPublish(table[batch[i]], outcome(batch[i]), now, cfg)]
    ensures AcceptedIds(batch[..i + 1], outcome)
         == AcceptedIds(batch[..i], outcome) + if outcome(batch[i]).Accepted? then [batch[i]] else []
  {
    assert batch[..i + 1] == batch[..i] + [batch[i]];
    assert batch[..i + 1][..i] == batch[..i];
  }

  /** Rows that went from pending to published. */
  function NewlyPublished(before: Table, after: Table): set<int> {
    set id | id in before && id in after && before[id].status == Pending && after[id].status == Published
  }

  class OutboxDispatcher {
    const cfg: Settings
    var table: Table
    /** Messages the broker accepted, oldest first. */
    var broker: seq<int>

    constructor (cfg: Settings, table: Table)
      ensures this.cfg == cfg && this.table == table && broker == []
    {
      this.cfg, this.table, broker := cfg, table, [];
    }

    /** One turn of the loop. */
    method PublishOne(id: int, now: int, outcome: PublishOutcome) returns (published: bool)
      requires id in table
      modifies this`table, this`broker
      ensures table == old(table)[id := AfterPublish(old(table)[id], outcome, now, cfg)]
      ensures published == outcome.Accepted? && broker == old(broker) + if published then [id] else []
    {
      var message := table[id].(publishAttempts := table[id].publishAttempts + 1);
      match outcome {
        case Raised(error) =>
          message := message.(lastError := Some(error));
          var delay := Backoff.RetryDelay(cfg.retryBase, cfg.retryMax, message.publishAttempts);
          message := message.(availableAt := now + delay * SECOND);
          published := false;
        case Accepted(at) =>
          broker := broker + [id];
          message := message.(status := Published);
          message := message.(publishedAt := Some(at));
          message := message.(lastError := None);
          published := true;
      }
      table := table[id := message];
    }

    /** One run that is not interrupted: it publishes the oldest due rows, is not stopped by a failing
        publish, counts exactly the rows it newly published, and touches no other row. */
    method DispatchOnce(now: int, locked: set<int>, outcome: int -> PublishOutcome) returns (publishedCount: nat)
      modifies this`table, this`broker
      ensures var batch := ListPending(old(table), locked, now, cfg.batchSize);
              && table == AfterBatch(old(table), batch, outcome, now, cfg)
              && broker == old(broker) + AcceptedIds(batch, outcome)
              && publishedCount == |AcceptedIds(batch, outcome)|
      ensures publishedCount == |NewlyPublished(old(table), table)|
    {
      var messages := ListPending(table, locked, now, cfg.batchSize);
      ghost var before, accepted := table, broker;
      assert NoDuplicates(messages) && forall id :: id in messages ==> id in before && before[id].status == Pending by {
        BatchIsDue(table, locked, now, cfg.batchSize);
      }
      assert messages[..0] == [];
      publishedCount := 0;
      for i := 0 to |messages|
        invariant table == AfterBatch(before, messages[..i], outcome, now, cfg)
        invariant broker == accepted + AcceptedIds(messages[..i], outcome)
        invariant publishedCount == |AcceptedIds(messages[..i], outcome)|
      {
        var id := messages[i];
        OneMoreInBatch(before, messages, i, outcome, now, cfg);
        var published := PublishOne(id, now, outcome(id));
        if published {
          publishedCount := publishedCount + 1;
        }
      }
      assert messages[..|messages|] == messages;
      CountOfAccepted(before, table, messages, outcome, now, cfg);
    }
  }

  lemma {:induction false} DistinctCount(ids: seq<int>, s: set<int>)
    requires NoDuplicates(ids) && forall id :: id in ids <==> id in s
    ensures |ids| == |s|
  {
    if ids == [] {
      assert forall id :: id in s ==> id in ids;
      assert s == {};
    } else {
      var last := ids[|ids| - 1];
      var most := ids[..|ids| - 1];
      assert ids == most + [last];
      assert last !in most;
      DistinctCount(most, s - {last});
    }
  }

  lemma CountOfAccepted(before: Table, after: Table, batch: seq<int>, outcome: int -> PublishOutcome, now: int,
                        cfg: Settings)
    requires NoDuplicates(batch)
    requires forall id :: id in batch ==> id in before && before[id].status == Pending
    requires after == AfterBatch(before, batch, outcome, now, cfg)
    ensures |AcceptedIds(batch, outcome)| == |NewlyPublished(before, after)|
  {
    AcceptedIdsAre(batch, outcome);
    DistinctCount(AcceptedIds(batch, outcome), NewlyPublished(before, after));
  }
}
