/** One row of a confirmation pass of the worker: the loop body of
    apps/worker/src/queues/payment-confirm.queue.ts. The functions follow the code,
    assertions included; the decision table says what they come to. */
module PaymentConfirm {
  import opened Common
  import opened PaymentMatching
  import opened Records
  import I = InvoiceStateMachine
  import P = PaymentStateMachine

  const REORG_GRACE_MS := 10 * 60 * 1000

  /** What the chain adapter says about a transaction hash. */
  datatype Reply = Found(confirmations: nat) | NotFound | RpcError

  /** A pass runs to its end, stops on an RPC error, or dies on a transition assertion. */
  datatype Outcome = Completed | Aborted | InvalidTransition

  datatype Pass = Pass(ledger: Ledger, outcome: Outcome)

  /** A payment and its invoice as the query before the loop returned them. */
  datatype Row = Row(id: nat, payment: Payment, invoice: Invoice)

  predicate InLedger(l: Ledger, row: Row) {
    row.id < |l.payments| && row.payment.invoiceId < |l.invoices|
  }

  function ReadRow(l: Ledger, k: nat): Row
    requires HasRow(l, k)
  {
    Row(k, l.payments[k], l.invoices[l.payments[k].invoiceId])
  }

  /** The stored rows still read as they did when the snapshot was taken. */
  predicate Current(l: Ledger, row: Row) {
    HasRow(l, row.id) && row == ReadRow(l, row.id)
  }

  // ----- the branches of the loop

  function WritePayment(l: Ledger, k: nat, p: Payment): Ledger
    requires k < |l.payments|
  {
    l.(payments := l.payments[k := p])
  }

  function WriteInvoice(l: Ledger, i: nat, inv: Invoice): Ledger
    requires i < |l.invoices|
  {
    l.(invoices := l.invoices[i := inv])
  }

  function FailPayment(l: Ledger, row: Row, now: int): Pass
    requires InLedger(l, row)
  {
    if !P.CanTransition(row.payment.status, P.Failed) then Pass(l, InvalidTransition)
    else if !I.CanTransition(row.invoice.status, I.Failed) then Pass(l, InvalidTransition)
    else
      var l1 := WritePayment(l, row.id, l.payments[row.id].(status := P.Failed, updatedAt := now));
      var i := row.payment.invoiceId;
      Pass(WriteInvoice(l1, i, l.invoices[i].(status := I.Failed)), Completed)
  }

  function HandleMissingTransaction(l: Ledger, row: Row, now: int): Pass
    requires InLedger(l, row)
  {
    if row.payment.status == P.Detected then FailPayment(l, row, now)
    else if row.payment.status == P.Confirming then
      if !P.CanTransition(P.Confirming, P.ReorgDetected) then Pass(l, InvalidTransition)
      else Pass(WritePayment(l, row.id, l.payments[row.id].(status := P.ReorgDetected, updatedAt := now)), Completed)
    else if now - row.payment.updatedAt >= REORG_GRACE_MS then FailPayment(l, row, now)
    else Pass(l, Completed)
  }

  function MoveToConfirming(l: Ledger, row: Row, n: nat, now: int): Pass
    requires InLedger(l, row)
  {
    if !P.CanTransition(row.payment.status, P.Confirming) then Pass(l, InvalidTransition)
    else if row.invoice.status != I.Confirming && !I.CanTransition(row.invoice.status, I.Confirming) then
      Pass(l, InvalidTransition)
    else
      var l1 := WritePayment(l, row.id, l.payments[row.id].(status := P.Confirming, confirmations := n, updatedAt := now));
      var i := row.payment.invoiceId;
      Pass(WriteInvoice(l1, i, l.invoices[i].(status := I.Confirming)), Completed)
  }

  function FinalizePayment(l: Ledger, row: Row, n: nat, now: int): Pass
    requires InLedger(l, row)
  {
    var received := if row.payment.receivedAmount.Some? then row.payment.receivedAmount.value else 0;
    var outcome := EvaluatePaymentAmount(row.payment.expectedAmount, received);
    var paymentStatus := PaymentOutcome(outcome);
    var invoiceStatus := InvoiceOutcome(outcome);
    if !P.CanTransition(P.Confirming, paymentStatus) then Pass(l, InvalidTransition)
    else if !I.CanTransition(I.Confirming, invoiceStatus) then Pass(l, InvalidTransition)
    else
      var l1 := WritePayment(l, row.id,
        l.payments[row.id].(status := paymentStatus, confirmations := n, confirmedAt := Some(now), updatedAt := now));
      var i := row.payment.invoiceId;
      var l2 := WriteInvoice(l1, i,
        if invoiceStatus == I.Paid then l.invoices[i].(status := invoiceStatus, paidAt := Some(now))
        else l.invoices[i].(status := invoiceStatus));
      var event := EventFor(i, row.invoice, OutcomeKind(outcome), invoiceStatus, row.payment.txHash);
      Pass(l2.(events := l2.events + [event]), Completed)
  }

  function ConfirmRow(l: Ledger, row: Row, reply: Reply, now: int, required: nat): (r: Pass)
    requires InLedger(l, row)
    ensures SameShape(l, r.ledger)
  {
    if row.payment.txHash.None? then Pass(l, Completed) else
    match reply
    case RpcError => Pass(l, Aborted)
    case NotFound => HandleMissingTransaction(l, row, now)
    case Found(n) =>
      if row.payment.status == P.ReorgDetected then MoveToConfirming(l, row, n, now)
      else if row.payment.status == P.Detected then MoveToConfirming(l, row, n, now)
      else if n < required then
        if n != row.payment.confirmations then
          Pass(WritePayment(l, row.id, l.payments[row.id].(confirmations := n, updatedAt := now)), Completed)
        else Pass(l, Completed)
      else FinalizePayment(l, row, n, now)
  }

  function ActivePayments(l: Ledger): set<nat> {
    set k | 0 <= k < |l.payments| && l.payments[k].status in {P.Detected, P.Confirming, P.ReorgDetected}
  }

  function ReadRows(l: Ledger, ids: seq<nat>): (rows: seq<Row>)
    requires forall k :: k in ids ==> HasRow(l, k)
    ensures |rows| == |ids|
    ensures forall j :: 0 <= j < |ids| ==> HasRow(l, ids[j]) && rows[j] == ReadRow(l, ids[j])
  {
    seq(|ids|, j requires 0 <= j < |ids| => assert ids[j] in ids; ReadRow(l, ids[j]))
  }

  /** The adapter's answers and the clock readings of one pass: a hash is asked
      about once, and a row is handled at one instant. */
  datatype World = World(reply: string -> Reply, clock: nat -> int)

  function ReplyFor(w: World, p: Payment): Reply {
    if p.txHash.Some? then w.reply(p.txHash.value) else NotFound
  }

  // ----- what one row amounts to

  /** The worker's decision table. */
  function WorkerVerdict(p: Payment, reply: Reply, now: int, required: nat): Verdict {
    match (p.status, reply)
    case (Detected, Found(n)) => Confirm(n)
    case (Detected, NotFound) => Fail
    case (Confirming, Found(n)) => if n >= required then Settle(n) else if n != p.confirmations then Recount(n) else Keep
    case (Confirming, NotFound) => Suspect
    case (ReorgDetected, Found(n)) => Confirm(n)
    case (ReorgDetected, NotFound) => if now - p.updatedAt >= REORG_GRACE_MS then Fail else Keep
    case _ => Keep
  }

  lemma VerdictAllowed(p: Payment, reply: Reply, now: int, required: nat)
    ensures Allowed(p.status, WorkerVerdict(p, reply, now, required), required)
  {
  }

  /** On a row that is still current no assertion throws, and the branches of the
      code come to the decision table. */
  lemma RowMatchesTable(l: Ledger, row: Row, reply: Reply, now: int, required: nat)
    requires Inv(l, required) && Current(l, row) && row.id in ActivePayments(l) && !reply.RpcError?
    ensures ConfirmRow(l, row, reply, now, required)
            == Pass(Apply(l, row.id, WorkerVerdict(row.payment, reply, now, required), now), Completed)
  {
    assert PaymentFits(l, row.id, required);
    var p := l.payments[row.id];
    var i := p.invoiceId;
    assert l.invoices[i := l.invoices[i]] == l.invoices;
    assert l.payments[row.id := p] == l.payments;
  }

  /** The fields that a decision at time `at` may change, and the date it leaves: what is
      written bears the time, what is not keeps its own. */
  predicate WrittenAt(p: Payment, at: int, q: Payment) {
    && q == p.(status := q.status, confirmations := q.confirmations, confirmedAt := q.confirmedAt, updatedAt := q.updatedAt)
    && (q.updatedAt == if q.status == p.status && q.confirmations == p.confirmations then p.updatedAt else at)
  }

  /** A payment that settles is confirmed, under- or overpaid by its amounts alone, and
      dated; any other keeps its date. */
  predicate RightlySettled(p: Payment, settles: bool, at: int, q: Payment) {
    var received := if p.receivedAmount.Some? then p.receivedAmount.value else 0;
    && (q.status == P.Confirmed <==> settles && received == p.expectedAmount)
    && (q.status == P.Underpaid <==> settles && received < p.expectedAmount)
    && (q.status == P.Overpaid <==> settles && received > p.expectedAmount)
    && (q.confirmedAt == if settles then Some(at) else p.confirmedAt)
  }

  /** What should become of a payment `p` about which the adapter says `reply` at
      time `at`: it settles exactly when it was already confirming and is deep
      enough, it fails exactly when it was never confirmed or ten minutes of grace are
      over, and whatever reappears goes back to confirming however deep it is. */
  predicate RightlyDecided(p: Payment, reply: Reply, at: int, required: nat, q: Payment) {
    var late := at - p.updatedAt >= 600_000;
    && (q.status == P.Failed <==> reply.NotFound? && (p.status == P.Detected || (p.status == P.ReorgDetected && late)))
    && (q.status == P.ReorgDetected <==>
          reply.NotFound? && (p.status == P.Confirming || (p.status == P.ReorgDetected && !late)))
    && (q.status == P.Confirming <==> reply.Found? && (p.status == P.Confirming ==> reply.confirmations < required))
    && RightlySettled(p, reply.Found? && p.status == P.Confirming && reply.confirmations >= required, at, q)
    && (reply.Found? ==> q.confirmations == reply.confirmations)
    && (reply.NotFound? ==> q.confirmations == p.confirmations)
    && WrittenAt(p, at, q)
  }

  lemma TableDecidesRightly(p: Payment, reply: Reply, at: int, required: nat)
    requires p.status in {P.Detected, P.Confirming, P.ReorgDetected} && !reply.RpcError?
    ensures RightlyDecided(p, reply, at, required, After(p, WorkerVerdict(p, reply, at, required), at))
  {
  }

  /** What becomes of the invoice: the status that goes with the payment's, and the date
      of payment when it is paid. */
  predicate RightlyInvoiced(inv: Invoice, p: Payment, q: Payment, at: int, inv': Invoice) {
    && inv' == inv.(status := inv'.status, paidAt := inv'.paidAt)
    && (q.status == P.Confirming ==> inv'.status == I.Confirming)
    && (q.status == P.ReorgDetected ==> inv'.status == I.Confirming)
    && (q.status == P.Failed ==> inv'.status == I.Failed)
    && (q.status == P.Confirmed ==> inv'.status == I.Paid)
    && (q.status == P.Underpaid ==> inv'.status == I.Underpaid)
    && (q.status == P.Overpaid ==> inv'.status == I.Overpaid)
    && (inv'.paidAt == if q.status == P.Confirmed then Some(at) else inv.paidAt)
  }
}
