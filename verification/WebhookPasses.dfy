/** Whole dispatch and retry passes, run one after another: what a pass delivers, how
    passes drain the queue, and when they cannot. */
module WebhookPasses {
  import opened Common
  import opened WebhookDelivery

  // ----- dispatch

  /** How the first attempt for each pair would go. */
  type Net = Pair -> Attempt

  function DispatchOne(s: Store, p: Pair, a: Attempt): Store {
    if Claimed(s.deliveries, p) then s
    else s.(deliveries := s.deliveries + [AfterFirst(NewDelivery(p), a)])
  }

  function DispatchPairs(s: Store, ps: seq<Pair>, net: Net): Store {
    if ps == [] then s else
      DispatchOne(DispatchPairs(s, ps[..|ps| - 1], net), ps[|ps| - 1], net(ps[|ps| - 1]))
  }

  predicate HasDelivery(s: Store, e: nat) {
    exists k :: 0 <= k < |s.deliveries| && s.deliveries[k].eventId == e
  }

  /** Events without any delivery: what the dispatch query looks for. */
  function Waiting(s: Store): set<nat> {
    set e | 0 <= e < |s.events| && !HasDelivery(s, e)
  }

  /** No delivery row is for event `e`. */
  ghost predicate Undelivered(s: Store, e: int) {
    0 <= e < |s.events| && forall k :: 0 <= k < |s.deliveries| ==> s.deliveries[k].eventId != e
  }

  /** The dispatch query looks for exactly the events without a delivery row. */
  lemma WaitingMeans(s: Store)
    ensures forall e :: e in Waiting(s) <==> Undelivered(s, e)
  {
    forall e: nat ensures HasDelivery(s, e) <==> exists k :: 0 <= k < |s.deliveries| && s.deliveries[k].eventId == e {
    }
  }

  function EnabledFor(s: Store, e: nat): set<nat>
    requires e < |s.events|
  {
    set p | 0 <= p < |s.endpoints| && s.endpoints[p].enabled && s.endpoints[p].organizationId == s.events[e].organizationId
  }

  /** An answer of the dispatch query: up to 25 waiting events, oldest first, none of
      those left out older than one taken. */
  ghost predicate IsBatch(s: Store, batch: seq<nat>) {
    && Distinct(batch)
    && (forall e :: e in batch ==> e in Waiting(s))
    && |batch| == (if |Waiting(s)| < BATCH_SIZE then |Waiting(s)| else BATCH_SIZE)
    && (forall i, j :: 0 <= i < j < |batch| ==>
          assert batch[i] in batch && batch[j] in batch;
          s.events[batch[i]].createdAt <= s.events[batch[j]].createdAt)
    && (forall e, e' :: e in batch && e' in Waiting(s) && e' !in batch ==> s.events[e].createdAt <= s.events[e'].createdAt)
  }

  /** The endpoints each event comes with, in the order the query returned them. */
  type Fan = nat -> seq<nat>

  ghost predicate HonestFan(s: Store, fan: Fan) {
    forall e: nat :: e < |s.events| ==> Lists(fan(e), EnabledFor(s, e))
  }

  function PairsOf(e: nat, endpoints: seq<nat>): (ps: seq<Pair>)
    ensures |ps| == |endpoints| && forall i :: 0 <= i < |ps| ==> ps[i] == Pair(e, endpoints[i])
  {
    seq(|endpoints|, i requires 0 <= i < |endpoints| => Pair(e, endpoints[i]))
  }

  function PlanOf(batch: seq<nat>, fan: Fan): seq<Pair> {
    if batch == [] then [] else
      PlanOf(batch[..|batch| - 1], fan) + PairsOf(batch[|batch| - 1], fan(batch[|batch| - 1]))
  }

  function DispatchPass(s: Store, batch: seq<nat>, fan: Fan, net: Net): Store {
    DispatchPairs(s, PlanOf(batch, fan), net)
  }

  lemma {:induction false} DispatchSplit(s: Store, a: seq<Pair>, b: seq<Pair>, net: Net)
    ensures DispatchPairs(s, a + b, net) == DispatchPairs(DispatchPairs(s, a, net), b, net)
  {
    if b == [] {
      assert a + b == a;
    } else {
      DispatchSplit(s, a, b[..|b| - 1], net);
      assert (a + b)[..|a + b| - 1] == a + b[..|b| - 1];
    }
  }

  lemma {:induction false} PlanMembers(batch: seq<nat>, fan: Fan, p: Pair)
    ensures p in PlanOf(batch, fan) <==> p.eventId in batch && p.endpointId in fan(p.eventId)
  {
    if batch != [] {
      var init, e := batch[..|batch| - 1], batch[|batch| - 1];
      PlanMembers(init, fan, p);
      var ps := PairsOf(e, fan(e));
      assert p in ps <==> p.eventId == e && p.endpointId in fan(e) by {
        if p.eventId == e && p.endpointId in fan(e) {
          var i :| 0 <= i < |fan(e)| && fan(e)[i] == p.endpointId;
          assert ps[i] == p;
        }
      }
    }
  }

  ghost predicate FirstAttemptOf(d: Delivery, ps: seq<Pair>, net: Net) {
    var p := Pair(d.eventId, d.endpointId);
    p in ps && d == AfterFirst(NewDelivery(p), net(p))
  }

  /** Claiming pairs one by one creates exactly the missing rows, each with the result
      of one first attempt, and touches no other row. */
  lemma {:induction false} DispatchClaims(s: Store, ps: seq<Pair>, net: Net)
    requires OneRowPerPair(s.deliveries)
    ensures var r := DispatchPairs(s, ps, net);
      && r.events == s.events && r.endpoints == s.endpoints
      && OneRowPerPair(r.deliveries)
      && s.deliveries <= r.deliveries
      && (forall k :: |s.deliveries| <= k < |r.deliveries| ==> FirstAttemptOf(r.deliveries[k], ps, net))
      && (forall p :: p in ps ==> Claimed(r.deliveries, p))
  {
    if ps != [] {
      var init, p := ps[..|ps| - 1], ps[|ps| - 1];
      DispatchClaims(s, init, net);
      var before, r := DispatchPairs(s, init, net), DispatchPairs(s, ps, net);
      forall k | |s.deliveries| <= k < |r.deliveries| ensures FirstAttemptOf(r.deliveries[k], ps, net) {
        if k < |before.deliveries| {
          assert FirstAttemptOf(before.deliveries[k], init, net);
        }
      }
      forall x | x in ps ensures Claimed(r.deliveries, x) {
        if x in init {
          var k :| 0 <= k < |before.deliveries| && IsFor(before.deliveries[k], x);
          assert IsFor(r.deliveries[k], x);
        } else if !Claimed(before.deliveries, p) {
          assert IsFor(r.deliveries[|before.deliveries|], p);
        }
      }
      if !Claimed(before.deliveries, p) {
        forall k | 0 <= k < |before.deliveries|
          ensures Pair(before.deliveries[k].eventId, before.deliveries[k].endpointId) != p
        {
          assert !IsFor(before.deliveries[k], p);
        }
      }
    }
  }

  /** The events of a batch that some enabled endpoint is waiting for. */
  function Deliverable(s: Store, batch: seq<nat>): set<nat>
    requires forall e :: e in batch ==> e < |s.events|
  {
    set e | e in batch && EnabledFor(s, e) != {}
  }

  /** A pass claims nothing for events outside its batch. */
  lemma OthersAreLeftAlone(s: Store, batch: seq<nat>, fan: Fan, net: Net, p: Pair)
    requires OneRowPerPair(s.deliveries) && p.eventId !in batch
    ensures Claimed(DispatchPass(s, batch, fan, net).deliveries, p) <==> Claimed(s.deliveries, p)
  {
    var r, ps := DispatchPass(s, batch, fan, net), PlanOf(batch, fan);
    DispatchClaims(s, ps, net);
    PlanMembers(batch, fan, p);
    if k :| 0 <= k < |s.deliveries| && IsFor(s.deliveries[k], p) {
      assert IsFor(r.deliveries[k], p);
    }
    forall k | |s.deliveries| <= k < |r.deliveries| ensures !IsFor(r.deliveries[k], p) {
      assert FirstAttemptOf(r.deliveries[k], ps, net);
    }
  }

  /** After a pass an event of the batch has one delivery for each enabled endpoint of
      its organization and none besides; it still waits exactly when there is none. */
  lemma PassDelivers(s: Store, batch: seq<nat>, fan: Fan, net: Net)
    requires OneRowPerPair(s.deliveries) && IsBatch(s, batch) && HonestFan(s, fan)
    ensures var r := DispatchPass(s, batch, fan, net);
      && r.events == s.events && r.endpoints == s.endpoints && OneRowPerPair(r.deliveries)
      && s.deliveries <= r.deliveries
      && Waiting(r) == Waiting(s) - Deliverable(s, batch)
      && (forall e, p: nat | e in batch :: Claimed(r.deliveries, Pair(e, p)) <==> p in EnabledFor(s, e))
  {
    var ps := PlanOf(batch, fan);
    var r := DispatchPass(s, batch, fan, net);
    DispatchClaims(s, ps, net);
    forall e, p: nat | e in batch ensures Claimed(r.deliveries, Pair(e, p)) <==> p in EnabledFor(s, e) {
      PlanMembers(batch, fan, Pair(e, p));
      assert Lists(fan(e), EnabledFor(s, e));
      if Claimed(r.deliveries, Pair(e, p)) {
        var k :| 0 <= k < |r.deliveries| && IsFor(r.deliveries[k], Pair(e, p));
        assert e in Waiting(s);
        if k < |s.deliveries| {
          assert HasDelivery(s, e);
        } else {
          assert FirstAttemptOf(r.deliveries[k], ps, net);
        }
      }
    }
    WaitingAfter(s, batch, fan, net);
  }

  lemma WaitingAfter(s: Store, batch: seq<nat>, fan: Fan, net: Net)
    requires OneRowPerPair(s.deliveries) && IsBatch(s, batch) && HonestFan(s, fan)
    ensures Waiting(DispatchPass(s, batch, fan, net)) == Waiting(s) - Deliverable(s, batch)
  {
    var ps := PlanOf(batch, fan);
    var r := DispatchPass(s, batch, fan, net);
    DispatchClaims(s, ps, net);
    forall e: nat | e < |s.events|
      ensures HasDelivery(r, e) <==> HasDelivery(s, e) || e in Deliverable(s, batch)
    {
      assert Lists(fan(e), EnabledFor(s, e));
      if HasDelivery(s, e) {
        var k :| 0 <= k < |s.deliveries| && s.deliveries[k].eventId == e;
        assert r.deliveries[k] == s.deliveries[k];
      }
      if e in Deliverable(s, batch) {
        var p :| p in EnabledFor(s, e);
        PlanMembers(batch, fan, Pair(e, p));
        var k :| 0 <= k < |r.deliveries| && IsFor(r.deliveries[k], Pair(e, p));
        assert r.deliveries[k].eventId == e;
      }
      if HasDelivery(r, e) && !HasDelivery(s, e) {
        var k :| 0 <= k < |r.deliveries| && r.deliveries[k].eventId == e;
        assert FirstAttemptOf(r.deliveries[k], ps, net);
        PlanMembers(batch, fan, Pair(e, r.deliveries[k].endpointId));
      }
    }
  }

  /** The query reselects events that nobody is subscribed to, so they are not skipped
      over: 25 of them, older than everything else, stop dispatch for all. */
  lemma UnsubscribedEventsBlockTheQueue(s: Store, stuck: set<nat>, batch: seq<nat>, fan: Fan, net: Net)
    requires OneRowPerPair(s.deliveries) && IsBatch(s, batch) && HonestFan(s, fan)
    requires stuck <= Waiting(s) && |stuck| >= 25
    requires forall e :: e in stuck ==> EnabledFor(s, e) == {}
    requires forall e, e' :: e in stuck && e' in Waiting(s) - stuck ==> s.events[e].createdAt < s.events[e'].createdAt
    ensures DispatchPass(s, batch, fan, net) == s
  {
    var taken := Members(batch);
    var plan := PlanOf(batch, fan);
    assert plan != [] ==> plan[0] in plan;
    DistinctSize(batch);
    forall e | e in batch ensures e in stuck {
      if e !in stuck {
        assert stuck <= taken - {e};
        SubsetSize(stuck, taken - {e});
      }
    }
    forall p ensures p !in PlanOf(batch, fan) {
      PlanMembers(batch, fan, p);
      if p.eventId in batch {
        assert Lists(fan(p.eventId), EnabledFor(s, p.eventId));
      }
    }
  }

  lemma SizeOfDifference<T>(a: set<T>, b: set<T>)
    requires b <= a
    ensures |a - b| == |a| - |b|
  {
  }

  lemma {:induction false} SubsetSize<T>(a: set<T>, b: set<T>)
    requires a <= b
    ensures |a| <= |b|
  {
    if a != {} {
      var x :| x in a;
      SubsetSize(a - {x}, b - {x});
    }
  }

  /** A pass gets anywhere if and only if its batch holds an event with an enabled endpoint. */
  lemma ProgressExactlyWhen(s: Store, batch: seq<nat>, fan: Fan, net: Net)
    requires OneRowPerPair(s.deliveries) && IsBatch(s, batch) && HonestFan(s, fan)
    ensures |Waiting(DispatchPass(s, batch, fan, net))| < |Waiting(s)| <==> exists e :: e in batch && EnabledFor(s, e) != {}
  {
    PassDelivers(s, batch, fan, net);
    var gone := Deliverable(s, batch);
    SizeOfDifference(Waiting(s), gone);
    if e :| e in batch && EnabledFor(s, e) != {} {
      assert e in gone;
    } else {
      assert gone == {};
    }
  }

  // ----- retry

  /** The loop over due rows as the query read them. */
  function RetryRows(ds: seq<Delivery>, ids: seq<nat>, read: seq<Delivery>, net: nat -> Attempt): (r: seq<Delivery>)
    requires |read| == |ds| && forall i :: 0 <= i < |ids| ==> ids[i] < |ds|
    ensures |r| == |ds|
  {
    if ids == [] then ds else
      var id := ids[|ids| - 1];
      var before := RetryRows(ds, ids[..|ids| - 1], read, net);
      before[id := AfterRetry(before[id], read[id].attempt, net(id))]
  }

  ghost predicate IsDueBatch(ds: seq<Delivery>, now: int, ids: seq<nat>) {
    && Distinct(ids) && |ids| <= BATCH_SIZE
    && (forall i :: 0 <= i < |ids| ==> ids[i] < |ds| && Due(ds[ids[i]], now))
    && (|ids| < BATCH_SIZE ==> forall k :: 0 <= k < |ds| && Due(ds[k], now) ==> k in ids)
  }

  /** When no more than the batch takes are due, every FAILED row whose time has come is
      tried again, and no other row is touched. */
  lemma DueRowsAreRetried(ds: seq<Delivery>, now: int, ids: seq<nat>, net: nat -> Attempt, k: nat)
    requires IsDueBatch(ds, now, ids) && |ids| < 25 && k < |ds|
    ensures RetryRows(ds, ids, ds, net)[k]
         == if ds[k].status == Failed && ds[k].nextRetryAt.Some? && ds[k].nextRetryAt.value <= now
            then AfterRetry(ds[k], ds[k].attempt, net(k)) else ds[k]
  {
    RetryPassMeans(ds, ids, net);
    if k in ids {
      var i :| 0 <= i < |ids| && ids[i] == k;
      assert Due(ds[ids[i]], now);
    }
  }

  /** Each due row of the batch is tried exactly once more and no other row moves. */
  lemma {:induction false} RetryPassMeans(ds: seq<Delivery>, ids: seq<nat>, net: nat -> Attempt)
    requires Distinct(ids) && forall i :: 0 <= i < |ids| ==> ids[i] < |ds|
    ensures forall k :: 0 <= k < |ds| ==>
      RetryRows(ds, ids, ds, net)[k] == if k in ids then AfterRetry(ds[k], ds[k].attempt, net(k)) else ds[k]
  {
    if ids != [] {
      DistinctPrefix(ids, |ids| - 1);
      RetryPassMeans(ds, ids[..|ids| - 1], net);
    }
  }
}
