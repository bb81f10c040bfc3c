/** The two webhook jobs as they run: nested loops that claim, send and store. */
module WebhookJobs {
  import opened Common
  import opened RetrySchedule
  import opened WebhookDelivery
  import opened WebhookPasses

  class WebhookTables {
    var events: seq<Event>
    var endpoints: seq<Endpoint>
    var deliveries: seq<Delivery>

    function Contents(): Store
      reads this
    {
      Store(events, endpoints, deliveries)
    }

    constructor (events: seq<Event>, endpoints: seq<Endpoint>)
      ensures Contents() == Store(events, endpoints, [])
    {
      this.events, this.endpoints, this.deliveries := events, endpoints, [];
    }

    /** The insert that claims a pair: None on a unique-key conflict. */
    method CreateDelivery(p: Pair) returns (id: Option<nat>)
      modifies this`deliveries
      ensures id == if Claimed(old(deliveries), p) then None else Some(|old(deliveries)|)
      ensures deliveries == if id.None? then old(deliveries) else old(deliveries) + [NewDelivery(p)]
    {
      if Claimed(deliveries, p) {
        return None;
      }
      deliveries := deliveries + [NewDelivery(p)];
      return Some(|deliveries| - 1);
    }

    /** One endpoint of one event: claim, send, store. */
    method DispatchTo(p: Pair, net: Net)
      modifies this`deliveries
      ensures Contents() == DispatchOne(old(Contents()), p, net(p))
    {
      var id := CreateDelivery(p);
      if id.None? {
        return;
      }
      var result := net(p);
      if result.success {
        deliveries := deliveries[id.value := deliveries[id.value].(status := Succeeded, deliveredAt := Some(result.at))];
        return;
      }
      var delay := GetRetryDelayMs(1, result.random);
      deliveries := deliveries[id.value := deliveries[id.value].(
        status := Failed, nextRetryAt := if delay.None? then None else Some(result.at + delay.value))];
    }

    /** The inner loop: every endpoint of one event. */
    method DispatchEvent(event: nat, endpoints: seq<nat>, net: Net)
      modifies this`deliveries
      ensures Contents() == DispatchPairs(old(Contents()), PairsOf(event, endpoints), net)
    {
      ghost var mine := PairsOf(event, endpoints);
      var m := 0;
      while m < |endpoints|
        invariant 0 <= m <= |endpoints|
        invariant Contents() == DispatchPairs(old(Contents()), mine[..m], net)
      {
        assert mine[..m + 1][..m] == mine[..m];
        DispatchTo(Pair(event, endpoints[m]), net);
        m := m + 1;
      }
      assert mine[..m] == mine;
    }

    /** `runWebhookDispatch`, on the rows that its query returned. */
    method RunWebhookDispatch(batch: seq<nat>, fan: Fan, net: Net)
      requires IsBatch(Contents(), batch) && HonestFan(Contents(), fan)
      modifies this`deliveries
      ensures Contents() == DispatchPass(old(Contents()), batch, fan, net)
      ensures OneRowPerPair(old(deliveries)) ==> OneRowPerPair(deliveries) && old(deliveries) <= deliveries
    {
      if OneRowPerPair(deliveries) {
        PassDelivers(Contents(), batch, fan, net);
      }
      var n := 0;
      while n < |batch|
        invariant 0 <= n <= |batch|
        invariant Contents() == DispatchPairs(old(Contents()), PlanOf(batch[..n], fan), net)
      {
        DispatchSplit(old(Contents()), PlanOf(batch[..n], fan), PairsOf(batch[n], fan(batch[n])), net);
        assert batch[..n + 1][..n] == batch[..n];
        DispatchEvent(batch[n], fan(batch[n]), net);
        n := n + 1;
      }
      assert batch[..n] == batch;
    }

    /** `runWebhookRetry`, on the due rows that its query returned. */
    method RunWebhookRetry(due: seq<nat>, now: int, net: nat -> Attempt)
      requires IsDueBatch(deliveries, now, due)
      modifies this`deliveries
      ensures |deliveries| == |old(deliveries)|
      ensures forall k :: 0 <= k < |deliveries| ==>
        deliveries[k] == if k in due then AfterRetry(old(deliveries)[k], old(deliveries)[k].attempt, net(k)) else old(deliveries)[k]
    {
      var read := deliveries;
      var n := 0;
      while n < |due|
        invariant 0 <= n <= |due|
        invariant |deliveries| == |read|
        invariant deliveries == RetryRows(read, due[..n], read, net)
      {
        assert due[..n + 1][..n] == due[..n];
        var id := due[n];
        var result := net(id);
        var attempt := read[id].attempt + 1;
        if result.success {
          deliveries := deliveries[id := deliveries[id].(attempt := attempt, status := Succeeded, deliveredAt := Some(result.at))];
        } else {
          var delay := GetRetryDelayMs(attempt, result.random);
          deliveries := deliveries[id := deliveries[id].(
            attempt := attempt,
            status := if delay.None? then Exhausted else Failed,
            nextRetryAt := if delay.None? then None else Some(result.at + delay.value))];
        }
        n := n + 1;
      }
      assert due[..n] == due;
      RetryPassMeans(read, due, net);
    }
  }
}
