/** Dispatch passes one after another, with events arriving in between: what leaves the
    queue of waiting events, and when an event leaves it at all. */
module WebhookQueue {
  import opened Common
  import opened WebhookDelivery
  import opened WebhookPasses

  /** The events that arrive before a pass, what its queries return, and the network. */
  datatype Input = Input(more: seq<Event>, batch: seq<nat>, fan: Fan, net: Net)

  function Arrive(s: Store, more: seq<Event>): Store {
    s.(events := s.events + more)
  }

  function OnePass(s: Store, i: Input): Store {
    DispatchPass(Arrive(s, i.more), i.batch, i.fan, i.net)
  }

  ghost predicate Answered(s: Store, i: Input) {
    IsBatch(Arrive(s, i.more), i.batch) && HonestFan(Arrive(s, i.more), i.fan)
  }

  /** The tables before, between and after a series of passes. */
  ghost predicate Trace(stores: seq<Store>, ins: seq<Input>) {
    && |stores| == |ins| + 1
    && forall i {:trigger ins[i]} :: 0 <= i < |ins| ==> Answered(stores[i], ins[i]) && stores[i + 1] == OnePass(stores[i], ins[i])
  }

  lemma PassAt(stores: seq<Store>, ins: seq<Input>, n: nat)
    requires Trace(stores, ins) && n < |ins|
    ensures Answered(stores[n], ins[n]) && stores[n + 1] == OnePass(stores[n], ins[n])
  {
  }

  // ----- arrivals

  lemma ArrivalsWaitToo(s: Store, more: seq<Event>)
    ensures forall e: nat :: e < |s.events| ==> (e in Waiting(Arrive(s, more)) <==> e in Waiting(s))
    ensures forall e: nat :: e < |s.events| ==> EnabledFor(Arrive(s, more), e) == EnabledFor(s, e)
  {
    forall e: nat | e < |s.events| ensures HasDelivery(Arrive(s, more), e) <==> HasDelivery(s, e) {
    }
  }

  /** Everything that arrives during the passes was created after `at`. */
  ghost predicate NewerThan(ins: seq<Input>, at: int) {
    forall i :: 0 <= i < |ins| ==> AllNewer(ins[i].more, at)
  }

  ghost predicate AllNewer(more: seq<Event>, at: int) {
    forall j :: 0 <= j < |more| ==> more[j].createdAt > at
  }

  ghost predicate Later(s: Store, r: Store, at: int) {
    forall x :: |s.events| <= x < |r.events| ==> r.events[x].createdAt > at
  }

  // ----- what has left the queue

  /** Event `e` has one delivery for each enabled endpoint and none besides. */
  ghost predicate Delivered(s: Store, r: Store, e: nat)
    requires e < |s.events|
  {
    forall p: nat :: Claimed(r.deliveries, Pair(e, p)) <==> p in EnabledFor(s, e)
  }

  /** What any series of passes keeps: no pair has two rows, rows stay, and an event that
      has left the queue is delivered. */
  ghost predicate Served(s: Store, r: Store) {
    && s.events <= r.events && r.endpoints == s.endpoints && OneRowPerPair(r.deliveries)
    && s.deliveries <= r.deliveries
    && (forall e :: e in Waiting(r) && e < |s.events| ==> e in Waiting(s))
    && (forall e :: e in Waiting(s) && e !in Waiting(r) ==> Delivered(s, r, e))
  }

  lemma SameEndpoints(s: Store, r: Store, e: nat)
    requires s.events <= r.events && r.endpoints == s.endpoints && e < |s.events|
    ensures EnabledFor(r, e) == EnabledFor(s, e)
  {
  }

  lemma StaysDelivered(s: Store, m: Store, batch: seq<nat>, fan: Fan, net: Net, e: nat)
    requires OneRowPerPair(m.deliveries) && e < |s.events| && e !in batch && Delivered(s, m, e)
    ensures Delivered(s, DispatchPass(m, batch, fan, net), e)
  {
    forall p: nat ensures Claimed(DispatchPass(m, batch, fan, net).deliveries, Pair(e, p)) <==> p in EnabledFor(s, e) {
      OthersAreLeftAlone(m, batch, fan, net, Pair(e, p));
    }
  }

  lemma BatchIsDelivered(s: Store, m: Store, batch: seq<nat>, fan: Fan, net: Net, e: nat)
    requires s.events <= m.events && m.endpoints == s.endpoints && e < |s.events| && e in batch
    requires OneRowPerPair(m.deliveries) && IsBatch(m, batch) && HonestFan(m, fan)
    ensures Delivered(s, DispatchPass(m, batch, fan, net), e)
  {
    PassDelivers(m, batch, fan, net);
    SameEndpoints(s, m, e);
  }

  lemma OnePassServes(s: Store, m: Store, i: Input)
    requires Served(s, m) && Answered(m, i)
    ensures Served(s, OnePass(m, i))
  {
    var a, r := Arrive(m, i.more), OnePass(m, i);
    ArrivalsWaitToo(m, i.more);
    PassDelivers(a, i.batch, i.fan, i.net);
    forall e | e in Waiting(s) && e !in Waiting(r) ensures Delivered(s, r, e) {
      if e in i.batch {
        BatchIsDelivered(s, a, i.batch, i.fan, i.net, e);
      } else {
        assert e !in Waiting(m) && Delivered(s, m, e) && Delivered(s, a, e);
        StaysDelivered(s, a, i.batch, i.fan, i.net, e);
      }
    }
  }

  lemma {:induction false} PassesServe(stores: seq<Store>, ins: seq<Input>, n: nat)
    requires Trace(stores, ins) && n <= |ins| && OneRowPerPair(stores[0].deliveries)
    ensures Served(stores[0], stores[n])
  {
    if n > 0 {
      PassesServe(stores, ins, n - 1);
      PassAt(stores, ins, n - 1);
      OnePassServes(stores[0], stores[n - 1], ins[n - 1]);
    }
  }

  lemma OnePassLater(s: Store, m: Store, i: Input, at: int)
    requires s.events <= m.events && OneRowPerPair(m.deliveries) && Answered(m, i) && Later(s, m, at) && AllNewer(i.more, at)
    ensures Later(s, Arrive(m, i.more), at) && Later(s, OnePass(m, i), at)
  {
    PassDelivers(Arrive(m, i.more), i.batch, i.fan, i.net);
  }

  lemma {:induction false} ArrivalsAreLater(stores: seq<Store>, ins: seq<Input>, at: int, n: nat)
    requires Trace(stores, ins) && n <= |ins| && OneRowPerPair(stores[0].deliveries) && NewerThan(ins, at)
    ensures Later(stores[0], stores[n], at)
  {
    if n > 0 {
      ArrivalsAreLater(stores, ins, at, n - 1);
      PassesServe(stores, ins, n - 1);
      PassAt(stores, ins, n - 1);
      OnePassLater(stores[0], stores[n - 1], ins[n - 1], at);
    }
  }

  // ----- draining

  function Rest(n: nat, k: nat): nat {
    if n <= 25 * k then 0 else n - 25 * k
  }

  /** A batch takes the first events before any that is newer than all of them. */
  lemma OldFirst(s: Store, batch: seq<nat>, first: set<nat>)
    requires IsBatch(s, batch) && first <= Waiting(s)
    requires forall e, x :: e in first && x in Waiting(s) - first ==> s.events[e].createdAt < s.events[x].createdAt
    ensures |first - Members(batch)| == Rest(|first|, 1)
  {
    var taken := Members(batch);
    DistinctSize(batch);
    if first <= taken {
      SubsetSize(first, taken);
      assert first - taken == {};
    } else {
      var o :| o in first && o !in taken;
      forall e | e in taken ensures e in first {
        assert e in batch && s.events[e].createdAt <= s.events[o].createdAt;
      }
      SubsetSize(taken + {o}, Waiting(s));
      SizeOfDifference(first, taken);
    }
  }

  /** The events of `s` that are still waiting in `r`. */
  ghost function Left(s: Store, r: Store): set<nat> {
    Waiting(s) * Waiting(r)
  }

  /** What is left of the old events is older than everything else that waits. */
  lemma LeftComesFirst(s: Store, a: Store, left: set<nat>)
    requires s.events <= a.events && left <= Waiting(s) && left <= Waiting(a)
    requires forall e :: e in Waiting(a) && e < |s.events| ==> e in left
    requires forall e :: e in Waiting(s) ==> Later(s, a, s.events[e].createdAt)
    ensures forall e, x :: e in left && x in Waiting(a) - left ==> a.events[e].createdAt < a.events[x].createdAt
  {
    forall e, x | e in left && x in Waiting(a) - left ensures a.events[e].createdAt < a.events[x].createdAt {
      assert Later(s, a, s.events[e].createdAt) && x >= |s.events|;
    }
  }

  lemma LeftAfter(s: Store, a: Store, batch: seq<nat>, r: Store, left: set<nat>)
    requires s.events <= a.events && a.endpoints == s.endpoints && left == Left(s, a)
    requires forall e :: e in batch ==> e in Waiting(a)
    requires Waiting(r) == Waiting(a) - Deliverable(a, batch)
    requires forall e :: e in Waiting(s) ==> EnabledFor(s, e) != {}
    ensures Left(s, r) == left - Members(batch)
  {
    forall e | e in left && e in batch ensures e in Deliverable(a, batch) {
      SameEndpoints(s, a, e);
    }
  }

  lemma OnePassDrains(s: Store, m: Store, i: Input)
    requires Served(s, m) && Answered(m, i) && forall e :: e in Waiting(s) ==> EnabledFor(s, e) != {}
    requires forall e :: e in Waiting(s) ==> Later(s, Arrive(m, i.more), s.events[e].createdAt)
    ensures |Left(s, OnePass(m, i))| == Rest(|Left(s, m)|, 1)
  {
    var a := Arrive(m, i.more);
    ArrivalsWaitToo(m, i.more);
    assert Left(s, a) == Left(s, m);
    PassDelivers(a, i.batch, i.fan, i.net);
    LeftComesFirst(s, a, Left(s, m));
    OldFirst(a, i.batch, Left(s, m));
    LeftAfter(s, a, i.batch, OnePass(m, i), Left(s, m));
  }

  lemma RestGoesOn(n: nat, k: nat)
    ensures Rest(Rest(n, k), 1) == Rest(n, k + 1)
  {
  }

  /** Every event that waits has an enabled endpoint, and what arrives is newer. */
  ghost predicate Drainable(s: Store, ins: seq<Input>) {
    forall e :: e in Waiting(s) ==> EnabledFor(s, e) != {} && NewerThan(ins, s.events[e].createdAt)
  }

  lemma ArrivalsBehindAll(stores: seq<Store>, ins: seq<Input>, n: nat)
    requires Trace(stores, ins) && n < |ins| && OneRowPerPair(stores[0].deliveries) && Drainable(stores[0], ins)
    ensures forall e :: e in Waiting(stores[0]) ==> Later(stores[0], Arrive(stores[n], ins[n].more), stores[0].events[e].createdAt)
  {
    PassesServe(stores, ins, n);
    PassAt(stores, ins, n);
    forall e | e in Waiting(stores[0]) ensures Later(stores[0], Arrive(stores[n], ins[n].more), stores[0].events[e].createdAt) {
      ArrivalsAreLater(stores, ins, stores[0].events[e].createdAt, n);
      OnePassLater(stores[0], stores[n], ins[n], stores[0].events[e].createdAt);
    }
  }

  lemma DrainStep(stores: seq<Store>, ins: seq<Input>, n: nat)
    requires Trace(stores, ins) && n < |ins| && OneRowPerPair(stores[0].deliveries) && Drainable(stores[0], ins)
    ensures |Left(stores[0], stores[n + 1])| == Rest(|Left(stores[0], stores[n])|, 1)
  {
    PassesServe(stores, ins, n);
    PassAt(stores, ins, n);
    ArrivalsBehindAll(stores, ins, n);
    OnePassDrains(stores[0], stores[n], ins[n]);
  }

  lemma NothingLeftYet(s: Store)
    ensures |Left(s, s)| == |Waiting(s)|
  {
    assert Left(s, s) == Waiting(s);
  }

  lemma {:induction false} RestIterates(counts: seq<nat>, n: nat)
    requires n < |counts| && forall j :: 0 <= j < |counts| - 1 ==> counts[j + 1] == Rest(counts[j], 1)
    ensures counts[n] == Rest(counts[0], n)
  {
    if n > 0 {
      RestIterates(counts, n - 1);
      assert counts[n - 1 + 1] == Rest(counts[n - 1], 1);
      RestGoesOn(counts[0], n - 1);
    }
  }

  lemma DrainCount(stores: seq<Store>, ins: seq<Input>, n: nat)
    requires Trace(stores, ins) && n <= |ins| && OneRowPerPair(stores[0].deliveries) && Drainable(stores[0], ins)
    ensures |Left(stores[0], stores[n])| == Rest(|Waiting(stores[0])|, n)
  {
    var counts := seq(|stores|, j requires 0 <= j < |stores| => |Left(stores[0], stores[j])|);
    forall j | 0 <= j < |ins| ensures counts[j + 1] == Rest(counts[j], 1) {
      DrainStep(stores, ins, j);
    }
    RestIterates(counts, n);
    NothingLeftYet(stores[0]);
  }

  /** If every waiting event has an enabled endpoint, each pass takes the 25 oldest of
      them off the queue, whatever newer ones arrive meanwhile; so ceil(n / 25) passes
      drain n events, each delivered once to every enabled endpoint. */
  lemma PassesDrain(stores: seq<Store>, ins: seq<Input>, n: nat)
    requires Trace(stores, ins) && n <= |ins| && OneRowPerPair(stores[0].deliveries) && Drainable(stores[0], ins)
    ensures Served(stores[0], stores[n])
    ensures |Left(stores[0], stores[n])| == Rest(|Waiting(stores[0])|, n)
  {
    PassesServe(stores, ins, n);
    DrainCount(stores, ins, n);
  }

  // ----- when an event is dispatched at all

  predicate Older(s: Store, x: nat, e: nat)
    requires x < |s.events| && e < |s.events|
  {
    s.events[x].createdAt < s.events[e].createdAt
  }

  /** The waiting events older than `e` that no enabled endpoint waits for. */
  function Stuck(s: Store, e: nat): set<nat>
    requires e < |s.events|
  {
    set x | x in Waiting(s) && Older(s, x, e) && EnabledFor(s, x) == {}
  }

  /** The waiting events older than `e` that some enabled endpoint waits for. */
  function Ahead(s: Store, e: nat): set<nat>
    requires e < |s.events|
  {
    set x | x in Waiting(s) && Older(s, x, e) && EnabledFor(s, x) != {}
  }

  /** No other waiting event was created at the same instant. */
  ghost predicate OwnInstant(s: Store, e: nat)
    requires e < |s.events|
  {
    forall x :: x in Waiting(s) && x != e ==> s.events[x].createdAt != s.events[e].createdAt
  }

  /** With 25 stuck events before it an event is in no batch. */
  lemma NotInBatch(s: Store, batch: seq<nat>, e: nat)
    requires IsBatch(s, batch) && e in Waiting(s) && |Stuck(s, e)| >= BATCH_SIZE
    ensures e !in batch
  {
    if e in batch {
      forall x | x in Stuck(s, e) ensures x in Members(batch) - {e} {
        assert x in batch;
      }
      DistinctSize(batch);
      SubsetSize(Stuck(s, e), Members(batch) - {e});
    }
  }

  /** An event that misses the batch sees at least 25 - |stuck| older ones dispatched. */
  lemma TheQueueMoves(s: Store, batch: seq<nat>, e: nat)
    requires IsBatch(s, batch) && e in Waiting(s) && OwnInstant(s, e) && e !in batch
    ensures |Ahead(s, e) - Deliverable(s, batch)| + BATCH_SIZE <= |Ahead(s, e)| + |Stuck(s, e)|
  {
    var taken := Members(batch);
    DistinctSize(batch);
    if |batch| < BATCH_SIZE {
      SubsetSize(taken + {e}, Waiting(s));
    }
    forall x | x in taken ensures x in Stuck(s, e) || x in Ahead(s, e) * Deliverable(s, batch) {
      assert x in batch && s.events[x].createdAt <= s.events[e].createdAt;
    }
    SubsetSize(taken, Stuck(s, e) + Ahead(s, e) * Deliverable(s, batch));
    assert Ahead(s, e) == (Ahead(s, e) - Deliverable(s, batch)) + Ahead(s, e) * Deliverable(s, batch);
  }

  /** How the queue before `e` looks in `r`, seen from `s`: the same stuck events, fewer
      that are ahead, and nothing as old as `e`. */
  ghost predicate QueueBefore(s: Store, r: Store, e: nat, ahead: set<nat>)
    requires e < |s.events|
  {
    && s.events <= r.events && r.endpoints == s.endpoints && OneRowPerPair(r.deliveries)
    && EnabledFor(r, e) == EnabledFor(s, e) && Stuck(r, e) == Stuck(s, e) && Ahead(r, e) == ahead
    && (OwnInstant(s, e) ==> OwnInstant(r, e))
  }

  /** Later arrivals do not move the queue before `e`. */
  lemma ArrivalsQueueBehind(s: Store, more: seq<Event>, e: nat)
    requires OneRowPerPair(s.deliveries) && e in Waiting(s)
    requires AllNewer(more, s.events[e].createdAt)
    ensures e in Waiting(Arrive(s, more)) && QueueBefore(s, Arrive(s, more), e, Ahead(s, e))
  {
    ArrivalsWaitToo(s, more);
    var a := Arrive(s, more);
    forall x | x in Waiting(a) && x >= |s.events| ensures a.events[x].createdAt > a.events[e].createdAt {
      assert a.events[x] == more[x - |s.events|];
    }
    assert Stuck(a, e) == Stuck(s, e);
    assert Ahead(a, e) == Ahead(s, e);
  }

  lemma QueueSplits(s: Store, r: Store, gone: set<nat>, e: nat)
    requires r.events == s.events && r.endpoints == s.endpoints && Waiting(r) == Waiting(s) - gone && e < |s.events|
    requires forall x :: x in gone ==> x < |s.events| && EnabledFor(s, x) != {}
    ensures Stuck(r, e) == Stuck(s, e) && Ahead(r, e) == Ahead(s, e) - gone
    ensures EnabledFor(r, e) == EnabledFor(s, e)
  {
    assert forall x: nat :: x < |s.events| ==> EnabledFor(r, x) == EnabledFor(s, x);
  }

  /** One pass without arrivals, from the point of view of an event that is waiting. */
  lemma PassFor(s: Store, batch: seq<nat>, fan: Fan, net: Net, e: nat)
    requires OneRowPerPair(s.deliveries) && IsBatch(s, batch) && HonestFan(s, fan)
    requires e in Waiting(s) && EnabledFor(s, e) != {}
    ensures QueueBefore(s, DispatchPass(s, batch, fan, net), e, Ahead(s, e) - Deliverable(s, batch))
    ensures e in Waiting(DispatchPass(s, batch, fan, net)) <==> e !in batch
  {
    PassDelivers(s, batch, fan, net);
    QueueSplits(s, DispatchPass(s, batch, fan, net), Deliverable(s, batch), e);
  }

  lemma BeforeStill(s: Store, m: Store, r: Store, e: nat, ahead: set<nat>, ahead': set<nat>)
    requires e < |s.events| && QueueBefore(s, m, e, ahead) && QueueBefore(m, r, e, ahead')
    ensures QueueBefore(s, r, e, ahead')
  {
  }

  /** A pass with arrivals that `e` does not get into. */
  lemma PassedOver(s: Store, i: Input, e: nat)
    requires OneRowPerPair(s.deliveries) && Answered(s, i) && e in Waiting(s) && EnabledFor(s, e) != {} && e !in i.batch
    requires AllNewer(i.more, s.events[e].createdAt)
    ensures e in Waiting(OnePass(s, i)) && |Ahead(OnePass(s, i), e)| <= |Ahead(s, e)|
    ensures QueueBefore(s, OnePass(s, i), e, Ahead(OnePass(s, i), e))
    ensures OwnInstant(s, e) ==> |Ahead(OnePass(s, i), e)| + BATCH_SIZE <= |Ahead(s, e)| + |Stuck(s, e)|
  {
    var a := Arrive(s, i.more);
    ArrivalsQueueBehind(s, i.more, e);
    PassFor(a, i.batch, i.fan, i.net, e);
    BeforeStill(s, a, OnePass(s, i), e, Ahead(s, e), Ahead(a, e) - Deliverable(a, i.batch));
    SubsetSize(Ahead(a, e) - Deliverable(a, i.batch), Ahead(a, e));
    if OwnInstant(a, e) {
      TheQueueMoves(a, i.batch, e);
    }
  }

  lemma ServedNow(s: Store, i: Input, e: nat)
    requires OneRowPerPair(s.deliveries) && Answered(s, i) && e in Waiting(s) && EnabledFor(s, e) != {}
    ensures e in Waiting(OnePass(s, i)) <==> e !in i.batch
  {
    ArrivalsWaitToo(s, i.more);
    PassDelivers(Arrive(s, i.more), i.batch, i.fan, i.net);
  }

  /** Events behind 25 stuck ones wait for ever. */
  lemma {:induction false} StarvedForEver(stores: seq<Store>, ins: seq<Input>, e: nat, n: nat)
    requires Trace(stores, ins) && n <= |ins| && OneRowPerPair(stores[0].deliveries) && Undelivered(stores[0], e)
    requires EnabledFor(stores[0], e) != {} && |Stuck(stores[0], e)| >= 25 && NewerThan(ins, stores[0].events[e].createdAt)
    ensures Undelivered(stores[n], e) && QueueBefore(stores[0], stores[n], e, Ahead(stores[n], e))
  {
    if n > 0 {
      StarvedForEver(stores, ins, e, n - 1);
      PassAt(stores, ins, n - 1);
      WaitingMeans(stores[n - 1]);
      StillStarved(stores[0], stores[n - 1], ins[n - 1], e);
      WaitingMeans(stores[n]);
    }
  }

  lemma StillStarved(s: Store, m: Store, i: Input, e: nat)
    requires e < |s.events| && e in Waiting(m) && QueueBefore(s, m, e, Ahead(m, e)) && Answered(m, i)
    requires EnabledFor(s, e) != {} && |Stuck(s, e)| >= BATCH_SIZE
    requires AllNewer(i.more, s.events[e].createdAt)
    ensures e in Waiting(OnePass(m, i)) && QueueBefore(s, OnePass(m, i), e, Ahead(OnePass(m, i), e))
  {
    ArrivalsQueueBehind(m, i.more, e);
    NotInBatch(Arrive(m, i.more), i.batch, e);
    PassedOver(m, i, e);
    BeforeStill(s, m, OnePass(m, i), e, Ahead(m, e), Ahead(OnePass(m, i), e));
  }

  // ----- how long it takes

  function Times(n: nat, k: int): int {
    if n == 0 then 0 else Times(n - 1, k) + k
  }

  lemma {:induction false} TimesIsProduct(n: nat, k: int)
    ensures Times(n, k) == n * k
  {
    if n > 0 {
      TimesIsProduct(n - 1, k);
      assert n * k == (n - 1) * k + k;
    }
  }

  lemma {:induction false} AtLeastOnce(n: nat, k: int)
    requires k >= 1
    ensures Times(n, k) >= n
  {
    if n > 0 {
      AtLeastOnce(n - 1, k);
    }
  }

  lemma OneMoreTime(all: int, before: int, after: int, stuck: int, n: nat)
    requires before + Times(n, BATCH_SIZE - stuck) <= all && after + BATCH_SIZE <= before + stuck
    ensures after + Times(n + 1, BATCH_SIZE - stuck) <= all
  {
  }

  /** The queue before `e` after `n` passes that did not take it: n x (25 - |stuck|)
      fewer are ahead of it. */
  ghost predicate StillWaits(s: Store, r: Store, e: nat, n: nat)
    requires e < |s.events|
  {
    && s.events <= r.events && QueueBefore(s, r, e, Ahead(r, e))
    && |Ahead(r, e)| + Times(n, BATCH_SIZE - |Stuck(s, e)|) <= |Ahead(s, e)|
  }

  lemma WaitsOneMore(s: Store, m: Store, i: Input, e: nat, n: nat)
    requires e < |s.events| && StillWaits(s, m, e, n) && e in Waiting(m) && EnabledFor(s, e) != {} && OwnInstant(s, e)
    requires Answered(m, i) && e in Waiting(OnePass(m, i))
    requires AllNewer(i.more, s.events[e].createdAt)
    ensures StillWaits(s, OnePass(m, i), e, n + 1)
  {
    ServedNow(m, i, e);
    PassedOver(m, i, e);
    BeforeStill(s, m, OnePass(m, i), e, Ahead(m, e), Ahead(OnePass(m, i), e));
    OneMoreTime(|Ahead(s, e)|, |Ahead(m, e)|, |Ahead(OnePass(m, i), e)|, |Stuck(s, e)|, n);
  }

  /** An event that is still waiting has seen that many older ones dispatched before it. */
  lemma {:induction false} WaitingHasABound(stores: seq<Store>, ins: seq<Input>, e: nat, n: nat)
    requires Trace(stores, ins) && n <= |ins| && OneRowPerPair(stores[0].deliveries) && e in Waiting(stores[0])
    requires NewerThan(ins, stores[0].events[e].createdAt) && EnabledFor(stores[0], e) != {} && OwnInstant(stores[0], e)
    requires e in Waiting(stores[n])
    ensures StillWaits(stores[0], stores[n], e, n)
  {
    if n > 0 {
      PassesServe(stores, ins, n - 1);
      PassAt(stores, ins, n - 1);
      WaitedBefore(stores[n - 1], ins[n - 1], e);
      WaitingHasABound(stores, ins, e, n - 1);
      WaitsOneMore(stores[0], stores[n - 1], ins[n - 1], e, n - 1);
    }
  }

  lemma WaitedBefore(s: Store, i: Input, e: nat)
    requires OneRowPerPair(s.deliveries) && Answered(s, i) && e < |s.events| && e in Waiting(OnePass(s, i))
    ensures e in Waiting(s)
  {
    ArrivalsWaitToo(s, i.more);
    PassDelivers(Arrive(s, i.more), i.batch, i.fan, i.net);
  }

  lemma ProductExceeds(n: nat, k: int, a: int)
    requires n * k > a
    ensures Times(n, k) > a
  {
    TimesIsProduct(n, k);
  }

  lemma ServedInTime(stores: seq<Store>, ins: seq<Input>, e: nat, n: nat)
    requires Trace(stores, ins) && n <= |ins| && OneRowPerPair(stores[0].deliveries) && Undelivered(stores[0], e)
    requires NewerThan(ins, stores[0].events[e].createdAt) && EnabledFor(stores[0], e) != {} && OwnInstant(stores[0], e)
    requires Times(n, BATCH_SIZE - |Stuck(stores[0], e)|) > |Ahead(stores[0], e)|
    ensures !Undelivered(stores[n], e) && Delivered(stores[0], stores[n], e)
  {
    WaitingMeans(stores[0]);
    WaitingMeans(stores[n]);
    PassesServe(stores, ins, n);
    if e in Waiting(stores[n]) {
      WaitingHasABound(stores, ins, e, n);
    }
  }

  /** With fewer than 25 stuck events before it, an event that an enabled endpoint waits
      for is delivered as soon as the passes outnumber the events ahead of it, at a rate
      of 25 less the stuck ones for each pass, whatever newer events arrive meanwhile. */
  lemma ServedWithin(stores: seq<Store>, ins: seq<Input>, e: nat, n: nat)
    requires Trace(stores, ins) && n <= |ins| && OneRowPerPair(stores[0].deliveries) && Undelivered(stores[0], e)
    requires NewerThan(ins, stores[0].events[e].createdAt) && EnabledFor(stores[0], e) != {} && OwnInstant(stores[0], e)
    requires n * (25 - |Stuck(stores[0], e)|) > |Ahead(stores[0], e)|
    ensures !Undelivered(stores[n], e) && Delivered(stores[0], stores[n], e)
  {
    ProductExceeds(n, 25 - |Stuck(stores[0], e)|, |Ahead(stores[0], e)|);
    ServedInTime(stores, ins, e, n);
  }

  /** So after enough passes an event that an enabled endpoint waits for has been
      dispatched if and only if fewer than 25 stuck events came before it. */
  lemma ServedExactlyWhen(stores: seq<Store>, ins: seq<Input>, e: nat, n: nat)
    requires Trace(stores, ins) && n <= |ins| && OneRowPerPair(stores[0].deliveries) && Undelivered(stores[0], e)
    requires NewerThan(ins, stores[0].events[e].createdAt) && EnabledFor(stores[0], e) != {} && OwnInstant(stores[0], e)
    requires n > |Ahead(stores[0], e)|
    ensures !Undelivered(stores[n], e) <==> |Stuck(stores[0], e)| < 25
  {
    if |Stuck(stores[0], e)| < 25 {
      AtLeastOnce(n, BATCH_SIZE - |Stuck(stores[0], e)|);
      ServedInTime(stores, ins, e, n);
    } else {
      StarvedForEver(stores, ins, e, n);
    }
  }

  // ----- there always is a next pass

  lemma {:induction false} OldestOf(s: Store, left: set<nat>) returns (e: nat)
    requires left != {} && forall x :: x in left ==> x < |s.events|
    ensures e in left && forall x :: x in left ==> s.events[e].createdAt <= s.events[x].createdAt
  {
    e :| e in left;
    if left != {e} {
      var other := OldestOf(s, left - {e});
      if s.events[other].createdAt < s.events[e].createdAt {
        e := other;
      }
    }
  }

  lemma {:induction false} OldestFirst(s: Store, n: nat) returns (batch: seq<nat>)
    requires n <= |Waiting(s)|
    ensures Distinct(batch) && |batch| == n && forall e :: e in batch ==> e in Waiting(s)
    ensures forall i, j :: 0 <= i < j < n ==>
      assert batch[i] in batch && batch[j] in batch; s.events[batch[i]].createdAt <= s.events[batch[j]].createdAt
    ensures forall e, x :: e in batch && x in Waiting(s) && x !in batch ==> s.events[e].createdAt <= s.events[x].createdAt
  {
    batch := [];
    if n > 0 {
      var init := OldestFirst(s, n - 1);
      DistinctSize(init);
      var left := Waiting(s) - Members(init);
      if left == {} {
        forall x | x in Waiting(s) ensures x in Members(init) {
          assert x !in left;
        }
        SubsetSize(Waiting(s), Members(init));
      }
      var e := OldestOf(s, left);
      batch := init + [e];
    }
  }

  lemma BatchOf(s: Store) returns (batch: seq<nat>)
    ensures IsBatch(s, batch)
  {
    batch := OldestFirst(s, if |Waiting(s)| < BATCH_SIZE then |Waiting(s)| else BATCH_SIZE);
  }

  ghost function ListOf(members: set<nat>): (r: seq<nat>)
    ensures Lists(r, members)
  {
    if members == {} then [] else
      var x :| x in members;
      ListOf(members - {x}) + [x]
  }

  ghost function FanOf(s: Store): (fan: Fan)
    ensures HonestFan(s, fan)
  {
    (e: nat) => if e < |s.events| then ListOf(EnabledFor(s, e)) else []
  }

  lemma NextPass(s: Store, more: seq<Event>, net: Net) returns (i: Input)
    ensures Answered(s, i) && i.more == more
  {
    var a := Arrive(s, more);
    var batch := BatchOf(a);
    i := Input(more, batch, FanOf(a), net);
  }

  /** Whatever arrives, the queries always have answers of the assumed kind, so passes
      can go on for ever. */
  lemma {:induction false} PassesExist(s: Store, arrivals: seq<seq<Event>>, net: Net) returns (stores: seq<Store>, ins: seq<Input>)
    ensures Trace(stores, ins) && stores[0] == s
    ensures |ins| == |arrivals| && forall i :: 0 <= i < |ins| ==> ins[i].more == arrivals[i]
  {
    stores, ins := [s], [];
    if arrivals != [] {
      stores, ins := PassesExist(s, arrivals[..|arrivals| - 1], net);
      var last := NextPass(stores[|ins|], arrivals[|arrivals| - 1], net);
      OneMorePass(stores, ins, last);
      stores, ins := stores + [OnePass(stores[|ins|], last)], ins + [last];
    }
  }

  lemma OneMorePass(stores: seq<Store>, ins: seq<Input>, last: Input)
    requires Trace(stores, ins) && Answered(stores[|ins|], last)
    ensures Trace(stores + [OnePass(stores[|ins|], last)], ins + [last])
  {
    var ins' := ins + [last];
    assert forall i {:trigger ins'[i]} :: 0 <= i < |ins| ==> ins'[i] == ins[i];
  }
}
