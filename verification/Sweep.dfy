/** Applying verdicts to many payments, one transaction after another, in the order
    of a list of rows read beforehand. Under the joint invariant the order and the
    staleness of the list do not matter: the result is a pointwise rewrite. */
module Sweep {
  import opened Common
  import opened Records
  import I = InvoiceStateMachine

  /** For each payment id, what is decided about it and when. */
  datatype Decision = Decision(verdict: Verdict, at: int)

  type Plan = nat -> Decision

  ghost predicate RowsExist(l: Ledger, ids: seq<nat>) {
    forall k :: k in ids ==> HasRow(l, k)
  }

  ghost function ApplyAll(l: Ledger, ids: seq<nat>, plan: Plan): (r: Ledger)
    requires RowsExist(l, ids)
    ensures SameShape(l, r)
  {
    if ids == [] then l else
      var last := ids[|ids| - 1];
      var before := ApplyAll(l, ids[..|ids| - 1], plan);
      assert HasRow(l, last);
      Apply(before, last, plan(last).verdict, plan(last).at)
  }

  ghost predicate PlanAllowed(l: Ledger, ids: seq<nat>, plan: Plan, required: nat) {
    forall k :: k in ids ==> HasRow(l, k) && Allowed(l.payments[k].status, plan(k).verdict, required)
  }

  // ----- the pointwise result

  predicate PaymentRewritten(l: Ledger, l': Ledger, k: nat, plan: Plan)
    requires HasRow(l, k) && SameShape(l, l')
  {
    var i := l.payments[k].invoiceId;
    && l'.payments[k] == After(l.payments[k], plan(k).verdict, plan(k).at)
    && l'.invoices[i] == InvoiceAfter(l.invoices[i], l.payments[k], plan(k).verdict, plan(k).at)
  }

  predicate PaymentUntouched(l: Ledger, l': Ledger, k: nat)
    requires HasRow(l, k) && SameShape(l, l')
  {
    var i := l.payments[k].invoiceId;
    l'.payments[k] == l.payments[k] && l'.invoices[i] == l.invoices[i]
  }

  ghost predicate Rewritten(l: Ledger, l': Ledger, ids: seq<nat>, plan: Plan)
    requires forall k :: 0 <= k < |l.payments| ==> HasRow(l, k)
  {
    && SameShape(l, l')
    && (forall k :: 0 <= k < |l.payments| ==>
          if k in ids then PaymentRewritten(l, l', k, plan) else PaymentUntouched(l, l', k))
    && (forall i :: 0 <= i < |l.invoices| && (forall k :: !Pays(l, k, i)) ==> l'.invoices[i] == l.invoices[i])
  }

  lemma RowsAlwaysExist(l: Ledger, required: nat)
    requires Inv(l, required)
    ensures forall k :: 0 <= k < |l.payments| ==> HasRow(l, k)
  {
    forall k | 0 <= k < |l.payments| ensures HasRow(l, k) {
      assert PaymentFits(l, k, required);
    }
  }

  /** One more payment of another invoice is rewritten. */
  lemma OneMoreRewritten(l: Ledger, before: Ledger, init: seq<nat>, last: nat, plan: Plan)
    requires ForeignKeys(l) && OnePaymentEach(l) && Rewritten(l, before, init, plan)
    requires last < |l.payments| && last !in init && HasRow(before, last)
    ensures Rewritten(l, Apply(before, last, plan(last).verdict, plan(last).at), init + [last], plan)
  {
    var after, ids := Apply(before, last, plan(last).verdict, plan(last).at), init + [last];
    assert HasRow(l, last) && PaymentUntouched(l, before, last);
    forall k | 0 <= k < |l.payments|
      ensures if k in ids then PaymentRewritten(l, after, k, plan) else PaymentUntouched(l, after, k)
    {
      assert HasRow(l, k);
      assert k in ids <==> k in init || k == last;
      assert if k in init then PaymentRewritten(l, before, k, plan) else PaymentUntouched(l, before, k);
      if k != last {
        assert l.payments[k].invoiceId != l.payments[last].invoiceId;
      }
    }
    forall i | 0 <= i < |l.invoices| && (forall k :: !Pays(l, k, i)) ensures after.invoices[i] == l.invoices[i] {
      assert !Pays(l, last, i);
    }
  }

  lemma {:induction false} SweepIsPointwise(l: Ledger, ids: seq<nat>, plan: Plan, required: nat)
    requires Inv(l, required) && Distinct(ids) && PlanAllowed(l, ids, plan, required)
    requires ForeignKeys(l)
    ensures Inv(ApplyAll(l, ids, plan), required)
    ensures Rewritten(l, ApplyAll(l, ids, plan), ids, plan)
  {
    if ids != [] {
      var init, last := ids[..|ids| - 1], ids[|ids| - 1];
      DistinctPrefix(ids, |ids| - 1);
      SweepIsPointwise(l, init, plan, required);
      var before := ApplyAll(l, init, plan);
      assert last in ids && HasRow(l, last) && PaymentUntouched(l, before, last);
      ApplyKeepsInv(before, last, plan(last).verdict, plan(last).at, required);
      OneMoreRewritten(l, before, init, last, plan);
      assert ids == init + [last];
    }
  }

  // ----- comparing results

  lemma {:induction false} DistinctMultiplicity<T>(s: seq<T>, x: T)
    requires Distinct(s)
    ensures multiset(s)[x] == if x in s then 1 else 0
  {
    if s != [] {
      var init, last := s[..|s| - 1], s[|s| - 1];
      assert s == init + [last];
      DistinctMultiplicity(init, x);
    }
  }

  lemma SameMembersSameMultiset<T(!new)>(a: seq<T>, b: seq<T>)
    requires Distinct(a) && Distinct(b) && forall x :: x in a <==> x in b
    ensures multiset(a) == multiset(b)
  {
    forall x ensures multiset(a)[x] == multiset(b)[x] {
      DistinctMultiplicity(a, x);
      DistinctMultiplicity(b, x);
    }
  }

  /** Two ledgers with the same rows; events carry generated ids, so their order
      in the table is not part of the comparison. */
  ghost predicate SameRows(a: Ledger, b: Ledger) {
    && a.invoices == b.invoices
    && a.payments == b.payments
    && multiset(a.events) == multiset(b.events)
  }

  lemma EventFollowsRows(a: Ledger, b: Ledger, required: nat, e: nat)
    requires Inv(a, required) && Inv(b, required) && a.invoices == b.invoices && a.payments == b.payments
    requires e < |a.events|
    ensures a.events[e] in b.events
  {
    assert EventFits(a, e);
    var i := a.events[e].invoiceId;
    assert InvoiceFits(b, i);
    var d :| Announces(b, d, i);
    assert EventFits(b, d);
    if a.invoices[i].status != I.Expired {
      var k :| Pays(b, k, i);
      assert Pays(a, k, i);
    }
    assert b.events[d] == a.events[e];
  }

  lemma EventsDistinct(l: Ledger)
    requires OneEventEach(l)
    ensures Distinct(l.events)
  {
  }

  /** Invoices and payments determine the events. */
  lemma EventsDetermined(a: Ledger, b: Ledger, required: nat)
    requires Inv(a, required) && Inv(b, required) && a.invoices == b.invoices && a.payments == b.payments
    ensures SameRows(a, b)
  {
    forall x ensures x in a.events <==> x in b.events {
      if x in a.events {
        var e :| 0 <= e < |a.events| && a.events[e] == x;
        EventFollowsRows(a, b, required, e);
      }
      if x in b.events {
        var e :| 0 <= e < |b.events| && b.events[e] == x;
        EventFollowsRows(b, a, required, e);
      }
    }
    EventsDistinct(a);
    EventsDistinct(b);
    SameMembersSameMultiset(a.events, b.events);
  }

  /** Rewriting leaves no freedom: two rewritings of the same rows that decide every
      payment alike give the same rows. */
  lemma RewrittenAlike(l: Ledger, a: Ledger, aIds: seq<nat>, aPlan: Plan, b: Ledger, bIds: seq<nat>, bPlan: Plan)
    requires forall k :: 0 <= k < |l.payments| ==> HasRow(l, k)
    requires Rewritten(l, a, aIds, aPlan) && Rewritten(l, b, bIds, bPlan)
    requires forall k :: 0 <= k < |l.payments| ==>
      (if k in aIds then aPlan(k) else Decision(Keep, 0)).verdict == (if k in bIds then bPlan(k) else Decision(Keep, 0)).verdict
    requires forall k :: k in aIds && k in bIds ==> aPlan(k).at == bPlan(k).at
    ensures a.invoices == b.invoices && a.payments == b.payments
  {
    forall k | 0 <= k < |l.payments|
      ensures a.payments[k] == b.payments[k]
      ensures l.payments[k].invoiceId < |l.invoices|
      ensures a.invoices[l.payments[k].invoiceId] == b.invoices[l.payments[k].invoiceId]
    {
      assert HasRow(l, k);
      assert if k in aIds then PaymentRewritten(l, a, k, aPlan) else PaymentUntouched(l, a, k);
      assert if k in bIds then PaymentRewritten(l, b, k, bPlan) else PaymentUntouched(l, b, k);
    }
    forall i | 0 <= i < |l.invoices| ensures a.invoices[i] == b.invoices[i] {
      if k :| Pays(l, k, i) {
        assert a.invoices[l.payments[k].invoiceId] == b.invoices[l.payments[k].invoiceId];
      }
    }
  }
}
