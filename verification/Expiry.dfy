/** Expiring overdue invoices, the first step of a confirmation pass in both
    processes (payment-confirm.queue.ts and payments.service.ts). */
module Expiry {
  import opened Common
  import opened Records
  import I = InvoiceStateMachine

  function Overdue(l: Ledger, now: int): set<nat> {
    set i | 0 <= i < |l.invoices| && l.invoices[i].status == I.Pending && l.invoices[i].expiresAt < now
  }

  /** The loop: `read` is the ledger as the query saw it, `ids` the rows it returned. */
  function ExpireRows(l: Ledger, ids: seq<nat>, read: Ledger): (r: Ledger)
    requires |read.invoices| == |l.invoices| && forall i :: i in ids ==> i < |l.invoices|
    ensures |r.invoices| == |l.invoices| && r.payments == l.payments
  {
    if ids == [] then l else
      var init, i := ids[..|ids| - 1], ids[|ids| - 1];
      assert i in ids && forall j :: j in init ==> j in ids;
      Expire(ExpireRows(l, init, read), i, read.invoices[i])
  }

  function ExpiryEvents(l: Ledger, ids: seq<nat>): seq<WebhookEvent>
    requires forall i :: i in ids ==> i < |l.invoices|
  {
    seq(|ids|, j requires 0 <= j < |ids| =>
      assert ids[j] in ids;
      EventFor(ids[j], l.invoices[ids[j]], "invoice.expired", I.Expired, None))
  }

  ghost predicate ExpiredExactly(l: Ledger, l': Ledger, ids: seq<nat>) {
    && l'.payments == l.payments
    && |l'.invoices| == |l.invoices|
    && (forall i :: i in ids ==> i < |l.invoices|)
    && l'.events == l.events + ExpiryEvents(l, ids)
    && forall i :: 0 <= i < |l.invoices| ==>
         l'.invoices[i] == if i in ids then l.invoices[i].(status := I.Expired) else l.invoices[i]
  }

  lemma {:induction false} ExpiryIsPointwise(l: Ledger, ids: seq<nat>, required: nat)
    requires Inv(l, required) && Distinct(ids)
    requires forall i :: i in ids ==> i < |l.invoices| && l.invoices[i].status == I.Pending
    ensures Inv(ExpireRows(l, ids, l), required)
    ensures ExpiredExactly(l, ExpireRows(l, ids, l), ids)
  {
    if ids != [] {
      var init, last := ids[..|ids| - 1], ids[|ids| - 1];
      DistinctPrefix(ids, |ids| - 1);
      assert forall i :: i in ids <==> i in init || i == last;
      ExpiryIsPointwise(l, init, required);
      assert last in ids && last !in init;
      var before := ExpireRows(l, init, l);
      assert before.invoices[last] == l.invoices[last];
      ExpireKeepsInv(before, last, required);
      assert ExpiryEvents(l, ids) == ExpiryEvents(l, init) + [EventFor(last, l.invoices[last], "invoice.expired", I.Expired, None)];
    }
  }
}
