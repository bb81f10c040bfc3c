/** The tables of webhook delivery and the writes of the two jobs
    (apps/worker/src/queues/webhook-dispatch.queue.ts, webhook-retry.queue.ts). */
module WebhookDelivery {
  import opened Common
  import opened RetrySchedule

  const BATCH_SIZE := 25

  datatype Endpoint = Endpoint(organizationId: string, enabled: bool)

  datatype Event = Event(organizationId: string, createdAt: int)

  datatype Status = Pending | Succeeded | Failed | Exhausted

  datatype Delivery = Delivery(
    eventId: nat, endpointId: nat, attempt: nat, status: Status,
    nextRetryAt: Option<int>, deliveredAt: Option<int>)

  /** Ids are positions. */
  datatype Store = Store(events: seq<Event>, endpoints: seq<Endpoint>, deliveries: seq<Delivery>)

  datatype Pair = Pair(eventId: nat, endpointId: nat)

  /** How one HTTP delivery went, when its result was stored, and the jitter drawn. */
  datatype Attempt = Attempt(success: bool, at: int, random: real)

  predicate Fair(a: Attempt) {
    0.0 <= a.random < 1.0
  }

  // ----- single writes

  predicate IsFor(d: Delivery, p: Pair) {
    d.eventId == p.eventId && d.endpointId == p.endpointId
  }

  /** The unique key on (eventId, endpointId). */
  predicate Claimed(ds: seq<Delivery>, p: Pair) {
    exists k :: 0 <= k < |ds| && IsFor(ds[k], p)
  }

  ghost predicate OneRowPerPair(ds: seq<Delivery>) {
    forall j, k :: 0 <= j < k < |ds| ==> Pair(ds[j].eventId, ds[j].endpointId) != Pair(ds[k].eventId, ds[k].endpointId)
  }

  function NewDelivery(p: Pair): Delivery {
    Delivery(p.eventId, p.endpointId, 1, Pending, None, None)
  }

  function AfterFirst(d: Delivery, a: Attempt): Delivery {
    if a.success then d.(status := Succeeded, deliveredAt := Some(a.at))
    else
      var delay := GetRetryDelayMs(1, a.random);
      d.(status := Failed, nextRetryAt := if delay.None? then None else Some(a.at + delay.value))
  }

  /** `read` is the attempt number the retry job read before it sent. A success keeps
      the old `nextRetryAt`. */
  function AfterRetry(d: Delivery, read: nat, a: Attempt): Delivery {
    var attempt := read + 1;
    if a.success then d.(attempt := attempt, status := Succeeded, deliveredAt := Some(a.at))
    else
      var delay := GetRetryDelayMs(attempt, a.random);
      d.(attempt := attempt,
         status := if delay.None? then Exhausted else Failed,
         nextRetryAt := if delay.None? then None else Some(a.at + delay.value))
  }

  predicate Due(d: Delivery, now: int) {
    d.status == Failed && d.nextRetryAt.Some? && d.nextRetryAt.value <= now
  }

  /** The next attempt is due a table entry, give or take a fifth, after the result of
      the failed one was stored. */
  predicate Scheduled(d: Delivery, storedAt: int) {
    d.nextRetryAt.Some? && WithinAFifth(d.attempt, d.nextRetryAt.value - storedAt)
  }

  lemma FirstFailureIsScheduled(p: Pair, a: Attempt)
    requires Fair(a)
    ensures var d := AfterFirst(NewDelivery(p), a);
      && IsFor(d, p) && d.attempt == 1
      && (a.success ==> d.status == Succeeded && d.deliveredAt == Some(a.at) && d.nextRetryAt == None)
      && (!a.success ==> d.status == Failed && Scheduled(d, a.at) && d.deliveredAt == None)
  {
    DelayWithinAFifth(1, a.random);
  }

  // ----- retries come to an end

  function Left(d: Delivery): nat {
    if d.status == Failed && d.attempt <= 7 then 7 - d.attempt else 0
  }

  /** The sum of the attempts still open to the failed deliveries. */
  function RetriesLeft(ds: seq<Delivery>): nat {
    if ds == [] then 0 else RetriesLeft(ds[..|ds| - 1]) + Left(ds[|ds| - 1])
  }

  function FailedCount(ds: seq<Delivery>): nat {
    if ds == [] then 0 else FailedCount(ds[..|ds| - 1]) + if ds[|ds| - 1].status == Failed then 1 else 0
  }

  ghost predicate AttemptsSane(ds: seq<Delivery>) {
    forall k :: 0 <= k < |ds| ==> (ds[k].status == Failed ==> 1 <= ds[k].attempt <= 6)
  }

  lemma {:induction false} AtMostSixEach(ds: seq<Delivery>)
    requires AttemptsSane(ds)
    ensures RetriesLeft(ds) <= 6 * FailedCount(ds)
    ensures RetriesLeft(ds) == 0 <==> forall k :: 0 <= k < |ds| ==> ds[k].status != Failed
  {
    if ds != [] {
      var init, last := ds[..|ds| - 1], ds[|ds| - 1];
      AtMostSixEach(init);
      assert forall k :: 0 <= k < |init| ==> init[k] == ds[k];
    }
  }

  lemma {:induction false} UpdateShiftsSum(ds: seq<Delivery>, k: nat, d: Delivery)
    requires k < |ds|
    ensures RetriesLeft(ds[k := d]) + Left(ds[k]) == RetriesLeft(ds) + Left(d)
  {
    var n := |ds| - 1;
    if k == n {
      assert ds[k := d][..n] == ds[..n];
    } else {
      UpdateShiftsSum(ds[..n], k, d);
      assert ds[k := d][..n] == ds[..n][k := d];
    }
  }

  datatype Retry = Retry(id: nat, result: Attempt)

  /** A series of retries, each of a row that is failed when its turn comes. */
  ghost predicate CanRetry(ds: seq<Delivery>, rs: seq<Retry>) {
    rs == [] ||
    var init, r := rs[..|rs| - 1], rs[|rs| - 1];
    CanRetry(ds, init) && r.id < |ds| && AllRetried(ds, init)[r.id].status == Failed
  }

  ghost function AllRetried(ds: seq<Delivery>, rs: seq<Retry>): (r: seq<Delivery>)
    ensures |r| == |ds|
  {
    if rs == [] then ds else
      var before := AllRetried(ds, rs[..|rs| - 1]);
      var r := rs[|rs| - 1];
      if r.id < |before| then before[r.id := AfterRetry(before[r.id], before[r.id].attempt, r.result)] else before
  }

  lemma RetryUsesOneUp(d: Delivery, a: Attempt)
    requires d.status == Failed && 1 <= d.attempt <= 6 && Fair(a)
    ensures Left(AfterRetry(d, d.attempt, a)) < Left(d)
    ensures AfterRetry(d, d.attempt, a).status == Failed ==> 1 <= AfterRetry(d, d.attempt, a).attempt <= 6
    ensures AfterRetry(d, d.attempt, a).status == Exhausted <==> !a.success && d.attempt == 6
    ensures AfterRetry(d, d.attempt, a).status == Succeeded <==> a.success
    ensures a.success ==> AfterRetry(d, d.attempt, a).nextRetryAt == d.nextRetryAt
    ensures a.success ==> AfterRetry(d, d.attempt, a).deliveredAt == Some(a.at)
    ensures AfterRetry(d, d.attempt, a).status == Failed ==> Scheduled(AfterRetry(d, d.attempt, a), a.at)
    ensures AfterRetry(d, d.attempt, a).status == Exhausted ==> AfterRetry(d, d.attempt, a).nextRetryAt == None
    ensures AfterRetry(d, d.attempt, a).attempt == d.attempt + 1
    ensures !a.success ==> AfterRetry(d, d.attempt, a).deliveredAt == d.deliveredAt
    ensures IsFor(AfterRetry(d, d.attempt, a), Pair(d.eventId, d.endpointId))
  {
    DelayWithinAFifth(d.attempt + 1, a.random);
  }

  /** However they go, n failed deliveries are settled by at most 6n retries. */
  lemma {:induction false} RetriesAreBounded(ds: seq<Delivery>, rs: seq<Retry>)
    requires AttemptsSane(ds) && CanRetry(ds, rs) && forall i :: 0 <= i < |rs| ==> Fair(rs[i].result)
    ensures AttemptsSane(AllRetried(ds, rs))
    ensures |rs| + RetriesLeft(AllRetried(ds, rs)) <= RetriesLeft(ds) <= 6 * FailedCount(ds)
  {
    AtMostSixEach(ds);
    if rs != [] {
      var init, r := rs[..|rs| - 1], rs[|rs| - 1];
      RetriesAreBounded(ds, init);
      var before := AllRetried(ds, init);
      RetryUsesOneUp(before[r.id], r.result);
      UpdateShiftsSum(before, r.id, AfterRetry(before[r.id], before[r.id].attempt, r.result));
    }
  }
}
