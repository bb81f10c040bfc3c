/** One row of the API's own confirmation phase: the loop body of
    `advanceConfirmations` in apps/api/src/payments/payments.service.ts. It has no
    reorg handling: a payment whose transaction is gone fails at once. */
module PaymentAdvance {
  import opened Records
  import opened PaymentConfirm
  import I = InvoiceStateMachine
  import P = PaymentStateMachine

  function AdvanceToConfirming(l: Ledger, row: Row, n: nat, now: int): Pass
    requires InLedger(l, row)
  {
    if !P.CanTransition(P.Detected, P.Confirming) then Pass(l, InvalidTransition)
    else if !I.CanTransition(I.Detected, I.Confirming) then Pass(l, InvalidTransition)
    else
      var l1 := WritePayment(l, row.id, l.payments[row.id].(status := P.Confirming, confirmations := n, updatedAt := now));
      var i := row.payment.invoiceId;
      Pass(WriteInvoice(l1, i, l.invoices[i].(status := I.Confirming)), Completed)
  }

  /** `failOrphanedPayment` and `finalizePayment` are word for word the worker's. */
  function AdvanceRow(l: Ledger, row: Row, reply: Reply, now: int, required: nat): (r: Pass)
    requires InLedger(l, row)
    ensures SameShape(l, r.ledger)
  {
    if row.payment.txHash.None? then Pass(l, Completed) else
    match reply
    case RpcError => Pass(l, Aborted)
    case NotFound => FailPayment(l, row, now)
    case Found(n) =>
      if row.payment.status == P.Detected then AdvanceToConfirming(l, row, n, now)
      else if n < required then
        if n != row.payment.confirmations then
          Pass(WritePayment(l, row.id, l.payments[row.id].(confirmations := n, updatedAt := now)), Completed)
        else Pass(l, Completed)
      else FinalizePayment(l, row, n, now)
  }

  function AdvancingPayments(l: Ledger): set<nat> {
    set k | 0 <= k < |l.payments| && l.payments[k].status in {P.Detected, P.Confirming}
  }

  function ApiVerdict(p: Payment, reply: Reply, required: nat): Verdict {
    match (p.status, reply)
    case (Detected, Found(n)) => Confirm(n)
    case (Confirming, Found(n)) => if n >= required then Settle(n) else if n != p.confirmations then Recount(n) else Keep
    case (Detected, NotFound) => Fail
    case (Confirming, NotFound) => Fail
    case _ => Keep
  }

  lemma ApiRowMatchesTable(l: Ledger, row: Row, reply: Reply, now: int, required: nat)
    requires Inv(l, required) && Current(l, row) && row.id in AdvancingPayments(l) && !reply.RpcError?
    ensures AdvanceRow(l, row, reply, now, required)
            == Pass(Apply(l, row.id, ApiVerdict(row.payment, reply, required), now), Completed)
  {
    assert PaymentFits(l, row.id, required);
    var i := l.payments[row.id].invoiceId;
    assert l.invoices[i := l.invoices[i]] == l.invoices;
    assert l.payments[row.id := l.payments[row.id]] == l.payments;
  }

  /** What should become of an active payment in the API: gone from the chain, it fails,
      however long it had been confirming; found, it settles exactly when it was already
      confirming and is deep enough, and otherwise is confirming. */
  predicate RightlyAdvanced(p: Payment, reply: Reply, at: int, required: nat, q: Payment) {
    && (q.status == P.Failed <==> reply.NotFound?)
    && q.status != P.ReorgDetected && q.status != P.Detected
    && (q.status == P.Confirming <==> reply.Found? && (p.status == P.Confirming ==> reply.confirmations < required))
    && RightlySettled(p, reply.Found? && p.status == P.Confirming && reply.confirmations >= required, at, q)
    && (reply.Found? ==> q.confirmations == reply.confirmations)
    && (reply.NotFound? ==> q.confirmations == p.confirmations)
    && WrittenAt(p, at, q)
  }

  lemma ApiTableDecidesRightly(p: Payment, reply: Reply, at: int, required: nat)
    requires p.status in {P.Detected, P.Confirming} && !reply.RpcError?
    ensures RightlyAdvanced(p, reply, at, required, After(p, ApiVerdict(p, reply, required), at))
  {
  }

  /** The two tables part company in exactly two places: a confirming payment whose
      transaction is gone, and a suspect payment that the API no longer looks at. */
  lemma TablesAgree(p: Payment, reply: Reply, now: int, required: nat)
    requires !reply.RpcError?
    ensures WorkerVerdict(p, reply, now, required) == ApiVerdict(p, reply, required) <==>
      && !(p.status == P.Confirming && reply.NotFound?)
      && !(p.status == P.ReorgDetected && (reply.Found? || now - p.updatedAt >= 600_000))
  {
  }
}
