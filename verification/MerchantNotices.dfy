/** From the ledger to the merchant: the one event of a settled invoice, and its
    deliveries. The ledger and the delivery tables share the event table. */
module MerchantNotices {
  import Records
  import opened WebhookDelivery
  import opened WebhookPasses
  import opened WebhookQueue
  import I = InvoiceStateMachine

  /** The delivery jobs see the events that the ledger holds. */
  ghost predicate Mirrors(l: Records.Ledger, s: Store) {
    && |s.events| == |l.events|
    && forall e :: 0 <= e < |s.events| ==> s.events[e].organizationId == l.events[e].organizationId
  }

  /** Every event still waits or has one delivery for each enabled endpoint of its
      organization and none besides. */
  ghost predicate Consistent(s: Store) {
    && OneRowPerPair(s.deliveries)
    && (forall k :: 0 <= k < |s.deliveries| ==> s.deliveries[k].eventId < |s.events|)
    && (forall e: nat :: e < |s.events| && e !in Waiting(s) ==> Delivered(s, s, e))
  }

  lemma NothingForArrivals(s: Store, more: seq<Event>, e: nat)
    requires Consistent(s) && |s.events| <= e < |s.events| + |more|
    ensures e in Waiting(Arrive(s, more))
  {
  }

  lemma ArrivalsKeepConsistent(s: Store, more: seq<Event>)
    requires Consistent(s)
    ensures Consistent(Arrive(s, more))
  {
    var a := Arrive(s, more);
    ArrivalsWaitToo(s, more);
    forall e: nat | e < |a.events| && e !in Waiting(a) ensures Delivered(a, a, e) {
      if e >= |s.events| {
        NothingForArrivals(s, more, e);
      } else {
        assert Delivered(s, s, e);
      }
    }
  }

  lemma PassKeepsEventIds(s: Store, batch: seq<nat>, fan: Fan, net: Net)
    requires Consistent(s) && IsBatch(s, batch) && HonestFan(s, fan)
    ensures forall k :: 0 <= k < |DispatchPass(s, batch, fan, net).deliveries| ==>
      DispatchPass(s, batch, fan, net).deliveries[k].eventId < |s.events|
  {
    var r, ps := DispatchPass(s, batch, fan, net), PlanOf(batch, fan);
    DispatchClaims(s, ps, net);
    forall k | 0 <= k < |r.deliveries| ensures r.deliveries[k].eventId < |s.events| {
      if k < |s.deliveries| {
        assert r.deliveries[k] == s.deliveries[k];
      } else {
        assert FirstAttemptOf(r.deliveries[k], ps, net);
        PlanMembers(batch, fan, Pair(r.deliveries[k].eventId, r.deliveries[k].endpointId));
        assert r.deliveries[k].eventId in Waiting(s);
      }
    }
  }

  lemma PassKeepsConsistent(s: Store, batch: seq<nat>, fan: Fan, net: Net)
    requires Consistent(s) && IsBatch(s, batch) && HonestFan(s, fan)
    ensures Consistent(DispatchPass(s, batch, fan, net))
  {
    var r := DispatchPass(s, batch, fan, net);
    PassDelivers(s, batch, fan, net);
    PassKeepsEventIds(s, batch, fan, net);
    forall e: nat | e < |r.events| && e !in Waiting(r) ensures Delivered(r, r, e) {
      assert EnabledFor(r, e) == EnabledFor(s, e);
      if e in batch {
        BatchIsDelivered(s, s, batch, fan, net, e);
      } else {
        assert e !in Waiting(s) && Delivered(s, s, e);
        StaysDelivered(s, s, batch, fan, net, e);
      }
    }
  }

  lemma {:induction false} PassesKeepConsistent(stores: seq<Store>, ins: seq<Input>, n: nat)
    requires Trace(stores, ins) && n <= |ins| && Consistent(stores[0])
    ensures Consistent(stores[n]) && stores[n].endpoints == stores[0].endpoints
  {
    if n > 0 {
      PassesKeepConsistent(stores, ins, n - 1);
      PassAt(stores, ins, n - 1);
      var m, i := stores[n - 1], ins[n - 1];
      ArrivalsKeepConsistent(m, i.more);
      PassKeepsConsistent(Arrive(m, i.more), i.batch, i.fan, i.net);
      PassDelivers(Arrive(m, i.more), i.batch, i.fan, i.net);
    }
  }

  lemma ItsEvent(l: Records.Ledger, required: nat, i: nat) returns (e: nat)
    requires Records.Inv(l, required) && i < |l.invoices| && I.Settled(l.invoices[i].status)
    ensures Records.Announces(l, e, i) && Records.Describes(l.events[e], l.invoices[i])
    ensures forall d :: Records.Announces(l, d, i) ==> d == e
  {
    assert Records.InvoiceFits(l, i);
    var x :| Records.Announces(l, x, i);
    e := x;
    assert Records.EventFits(l, e);
  }

  /** After any passes, whatever arrived in between, a settled invoice has exactly one
      event, which tells its outcome; and that event still waits or has exactly one
      delivery row for each enabled endpoint of the invoice's organization and for no
      other endpoint. */
  lemma SettledInvoiceIsAnnounced(l: Records.Ledger, required: nat, i: nat, stores: seq<Store>, ins: seq<Input>, n: nat)
    returns (e: nat)
    requires Records.Inv(l, required) && i < |l.invoices| && I.Settled(l.invoices[i].status)
    requires Trace(stores, ins) && n <= |ins| && Consistent(stores[0]) && Mirrors(l, stores[n])
    ensures Records.Announces(l, e, i) && Records.Describes(l.events[e], l.invoices[i])
    ensures forall d :: Records.Announces(l, d, i) ==> d == e
    ensures var r := stores[n];
      && OneRowPerPair(r.deliveries)
      && (Undelivered(r, e) || forall p: nat :: Claimed(r.deliveries, Pair(e, p)) <==>
            && p < |stores[0].endpoints| && stores[0].endpoints[p].enabled
            && stores[0].endpoints[p].organizationId == l.invoices[i].organizationId)
  {
    e := ItsEvent(l, required, i);
    PassesKeepConsistent(stores, ins, n);
    var r := stores[n];
    WaitingMeans(r);
    if e !in Waiting(r) {
      assert Delivered(r, r, e);
    }
  }
}
