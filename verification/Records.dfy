/** The three tables that the payment passes write, the joint invariant that ties
    them together, and the one-row rewrites every pass is made of. A row's id is
    its position: rows are added at the end and never deleted. */
module Records {
  import opened Common
  import opened PaymentMatching
  import I = InvoiceStateMachine
  import P = PaymentStateMachine

  /** Amounts are in units of 10^-8, the scale of the database columns. */
  datatype Invoice = Invoice(
    organizationId: string, externalId: Option<string>, amount: nat, currency: string,
    token: string, network: string, paymentAddress: string,
    createdAt: int, expiresAt: int, status: I.Status, paidAt: Option<int>)

  datatype Payment = Payment(
    invoiceId: nat, organizationId: string, network: string, token: string,
    expectedAmount: nat, receivedAmount: Option<nat>, txHash: Option<string>,
    fromAddress: string, toAddress: string, blockNumber: nat, confirmations: nat,
    status: P.Status, detectedAt: Option<int>, confirmedAt: Option<int>, updatedAt: int)

  datatype EventData = EventData(
    invoiceId: nat, externalId: Option<string>, amount: nat, currency: string,
    network: string, status: I.Status, txHash: Option<string>)

  datatype WebhookEvent = WebhookEvent(organizationId: string, invoiceId: nat, kind: string, data: EventData)

  datatype Ledger = Ledger(invoices: seq<Invoice>, payments: seq<Payment>, events: seq<WebhookEvent>)

  const EMPTY := Ledger([], [], [])

  function EventFor(id: nat, inv: Invoice, kind: string, status: I.Status, txHash: Option<string>): WebhookEvent {
    WebhookEvent(inv.organizationId, id, kind,
                 EventData(id, inv.externalId, inv.amount, inv.currency, inv.network, status, txHash))
  }

  // ----- outcomes of a finished payment

  function Received(p: Payment): nat {
    if p.receivedAmount.Some? then p.receivedAmount.value else 0
  }

  function PaymentOutcome(m: AmountMatch): P.Status {
    match m case Exact => P.Confirmed case Underpaid => P.Underpaid case Overpaid => P.Overpaid
  }

  function InvoiceOutcome(m: AmountMatch): I.Status {
    match m case Exact => I.Paid case Underpaid => I.Underpaid case Overpaid => I.Overpaid
  }

  function OutcomeKind(m: AmountMatch): string {
    match m case Exact => "payment.paid" case Underpaid => "payment.underpaid" case Overpaid => "payment.overpaid"
  }

  function KindOf(s: I.Status): string
    requires I.Settled(s)
  {
    match s
    case Paid => "payment.paid"
    case Underpaid => "payment.underpaid"
    case Overpaid => "payment.overpaid"
    case _ => "invoice.expired"
  }

  // ----- the joint invariant

  /** The statuses an invoice and its payment can have at the same time. */
  predicate Twin(i: I.Status, p: P.Status) {
    match p
    case Detected => i == I.Detected
    case Confirming => i == I.Confirming
    case ReorgDetected => i == I.Confirming
    case Confirmed => i == I.Paid
    case Underpaid => i == I.Underpaid
    case Overpaid => i == I.Overpaid
    case Failed => i == I.Failed
    case Pending => false
  }

  predicate Pays(l: Ledger, k: int, i: nat) {
    0 <= k < |l.payments| && l.payments[k].invoiceId == i
  }

  predicate Announces(l: Ledger, e: int, i: nat) {
    0 <= e < |l.events| && l.events[e].invoiceId == i
  }

  predicate PairFits(inv: Invoice, p: Payment, required: nat) {
    && Twin(inv.status, p.status)
    && p.expectedAmount == inv.amount
    && p.organizationId == inv.organizationId && p.network == inv.network && p.token == inv.token
    && p.txHash.Some? && p.receivedAmount.Some? && p.detectedAt.Some?
    && (p.status == P.Confirmed ==> p.receivedAmount.value == inv.amount)
    && (p.status == P.Underpaid ==> p.receivedAmount.value < inv.amount)
    && (p.status == P.Overpaid ==> p.receivedAmount.value > inv.amount)
    && (p.status in {P.Confirmed, P.Underpaid, P.Overpaid} ==> p.confirmations >= required && p.confirmedAt.Some?)
  }

  predicate PaymentFits(l: Ledger, k: nat, required: nat)
    requires k < |l.payments|
  {
    && l.payments[k].invoiceId < |l.invoices|
    && PairFits(l.invoices[l.payments[k].invoiceId], l.payments[k], required)
  }

  ghost predicate InvoiceFits(l: Ledger, i: nat)
    requires i < |l.invoices|
  {
    var inv := l.invoices[i];
    && inv.status !in {I.Created, I.Cancelled, I.Refunded}
    && (inv.paidAt.Some? <==> inv.status == I.Paid)
    && (inv.status !in {I.Pending, I.Expired} ==> exists k :: Pays(l, k, i))
    && (I.Settled(inv.status) ==> exists e :: Announces(l, e, i))
  }

  /** The event tells the invoice's organization its terms and its outcome. */
  predicate Describes(ev: WebhookEvent, inv: Invoice) {
    && I.Settled(inv.status) && ev.kind == KindOf(inv.status) && ev.data.status == inv.status
    && ev.organizationId == inv.organizationId
    && ev.data.invoiceId == ev.invoiceId && ev.data.externalId == inv.externalId
    && ev.data.amount == inv.amount && ev.data.currency == inv.currency && ev.data.network == inv.network
  }

  ghost predicate EventFits(l: Ledger, e: nat)
    requires e < |l.events|
  {
    var ev := l.events[e];
    && ev.invoiceId < |l.invoices|
    && var inv := l.invoices[ev.invoiceId];
    && Describes(ev, inv)
    && (inv.status == I.Expired ==> ev.data.txHash == None)
    && (forall k :: Pays(l, k, ev.invoiceId) ==> ev.data.txHash == l.payments[k].txHash)
  }

  ghost predicate OnePaymentEach(l: Ledger) {
    forall j, k :: 0 <= j < k < |l.payments| ==> l.payments[j].invoiceId != l.payments[k].invoiceId
  }

  ghost predicate HashesUnique(l: Ledger) {
    forall j, k :: 0 <= j < k < |l.payments| ==>
      (l.payments[j].network, l.payments[j].txHash) != (l.payments[k].network, l.payments[k].txHash)
  }

  ghost predicate OneEventEach(l: Ledger) {
    forall d, e :: 0 <= d < e < |l.events| ==> l.events[d].invoiceId != l.events[e].invoiceId
  }

  ghost predicate Inv(l: Ledger, required: nat) {
    && (forall k :: 0 <= k < |l.payments| ==> PaymentFits(l, k, required))
    && (forall i :: 0 <= i < |l.invoices| ==> InvoiceFits(l, i))
    && (forall e :: 0 <= e < |l.events| ==> EventFits(l, e))
    && OnePaymentEach(l) && HashesUnique(l) && OneEventEach(l)
  }

  // ----- rewriting one payment and its invoice

  /** What a pass decides about one active payment. */
  datatype Verdict =
    | Keep                    // nothing is written
    | Recount(n: nat)         // a new confirmation count
    | Confirm(n: nat)         // to Confirming
    | Suspect                 // the transaction vanished: to ReorgDetected
    | Fail                    // payment and invoice fail
    | Settle(n: nat)          // enough confirmations: the amount decides

  predicate Allowed(s: P.Status, v: Verdict, required: nat) {
    match v
    case Keep => true
    case Recount(_) => s == P.Confirming
    case Confirm(_) => s in {P.Detected, P.ReorgDetected}
    case Suspect => s == P.Confirming
    case Fail => s in {P.Detected, P.Confirming, P.ReorgDetected}
    case Settle(n) => s == P.Confirming && n >= required
  }

  function AmountOf(p: Payment): AmountMatch {
    EvaluatePaymentAmount(p.expectedAmount, Received(p))
  }

  function After(p: Payment, v: Verdict, now: int): Payment {
    match v
    case Keep => p
    case Recount(n) => p.(confirmations := n, updatedAt := now)
    case Confirm(n) => p.(status := P.Confirming, confirmations := n, updatedAt := now)
    case Suspect => p.(status := P.ReorgDetected, updatedAt := now)
    case Fail => p.(status := P.Failed, updatedAt := now)
    case Settle(n) =>
      p.(status := PaymentOutcome(AmountOf(p)), confirmations := n, confirmedAt := Some(now), updatedAt := now)
  }

  function InvoiceAfter(inv: Invoice, p: Payment, v: Verdict, now: int): Invoice {
    match v
    case Confirm(_) => inv.(status := I.Confirming)
    case Fail => inv.(status := I.Failed)
    case Settle(_) =>
      var s := InvoiceOutcome(AmountOf(p));
      inv.(status := s, paidAt := if s == I.Paid then Some(now) else inv.paidAt)
    case _ => inv
  }

  function Emitted(id: nat, inv: Invoice, p: Payment, v: Verdict): seq<WebhookEvent> {
    if v.Settle? then [EventFor(id, inv, OutcomeKind(AmountOf(p)), InvoiceOutcome(AmountOf(p)), p.txHash)] else []
  }

  predicate HasRow(l: Ledger, k: nat) {
    k < |l.payments| && l.payments[k].invoiceId < |l.invoices|
  }

  ghost predicate ForeignKeys(l: Ledger) {
    forall k :: 0 <= k < |l.payments| ==> HasRow(l, k)
  }

  /** Same numbers of rows, and every payment still belongs to its invoice. */
  predicate SameShape(a: Ledger, b: Ledger) {
    && |a.invoices| == |b.invoices|
    && |a.payments| == |b.payments|
    && forall k :: 0 <= k < |a.payments| ==> a.payments[k].invoiceId == b.payments[k].invoiceId
  }

  function Apply(l: Ledger, k: nat, v: Verdict, now: int): Ledger
    requires HasRow(l, k)
  {
    var p := l.payments[k];
    var i := p.invoiceId;
    Ledger(l.invoices[i := InvoiceAfter(l.invoices[i], p, v, now)],
           l.payments[k := After(p, v, now)],
           l.events + Emitted(i, l.invoices[i], p, v))
  }

  lemma VerdictKeepsPair(inv: Invoice, p: Payment, v: Verdict, now: int, required: nat)
    requires PairFits(inv, p, required) && Allowed(p.status, v, required)
    ensures PairFits(InvoiceAfter(inv, p, v, now), After(p, v, now), required)
    ensures inv.status == InvoiceAfter(inv, p, v, now).status || I.CanTransition(inv.status, InvoiceAfter(inv, p, v, now).status)
    ensures p.status == After(p, v, now).status || P.CanTransition(p.status, After(p, v, now).status)
  {
  }

  lemma ApplyKeepsPayments(l: Ledger, k: nat, v: Verdict, now: int, required: nat)
    requires Inv(l, required) && HasRow(l, k) && Allowed(l.payments[k].status, v, required)
    ensures var l' := Apply(l, k, v, now);
      && (forall j :: 0 <= j < |l'.payments| ==> PaymentFits(l', j, required))
      && OnePaymentEach(l') && HashesUnique(l')
  {
    var l' := Apply(l, k, v, now);
    assert PaymentFits(l, k, required);
    VerdictKeepsPair(l.invoices[l.payments[k].invoiceId], l.payments[k], v, now, required);
    forall j | 0 <= j < |l'.payments| ensures PaymentFits(l', j, required) {
      assert PaymentFits(l, j, required);
    }
  }

  lemma ApplyKeepsInvoices(l: Ledger, k: nat, v: Verdict, now: int, required: nat)
    requires Inv(l, required) && HasRow(l, k) && Allowed(l.payments[k].status, v, required)
    ensures var l' := Apply(l, k, v, now);
      && (forall i :: 0 <= i < |l'.invoices| ==> InvoiceFits(l', i))
  {
    var l' := Apply(l, k, v, now);
    assert PaymentFits(l, k, required);
    forall i | 0 <= i < |l'.invoices| ensures InvoiceFits(l', i) {
      assert InvoiceFits(l, i);
      if i == l.payments[k].invoiceId {
        assert Pays(l', k, i);
        if v.Settle? {
          assert Announces(l', |l.events|, i);
        }
      } else if j :| Pays(l, j, i) {
        assert Pays(l', j, i);
      }
      if e :| Announces(l, e, i) { assert Announces(l', e, i); }
    }
  }

  lemma ApplyKeepsEvents(l: Ledger, k: nat, v: Verdict, now: int, required: nat)
    requires Inv(l, required) && HasRow(l, k) && Allowed(l.payments[k].status, v, required)
    ensures var l' := Apply(l, k, v, now);
      && (forall e :: 0 <= e < |l'.events| ==> EventFits(l', e))
      && OneEventEach(l')
  {
    var l' := Apply(l, k, v, now);
    var i := l.payments[k].invoiceId;
    assert PaymentFits(l, k, required);
    forall e | 0 <= e < |l'.events| ensures EventFits(l', e) {
      assert forall j :: Pays(l', j, l'.events[e].invoiceId) ==> Pays(l, j, l'.events[e].invoiceId);
      if e < |l.events| {
        assert EventFits(l, e);
      }
    }
    forall e | 0 <= e < |l.events| && v.Settle? ensures l.events[e].invoiceId != i {
      assert EventFits(l, e);
    }
  }

  lemma ApplyKeepsInv(l: Ledger, k: nat, v: Verdict, now: int, required: nat)
    requires Inv(l, required) && HasRow(l, k) && Allowed(l.payments[k].status, v, required)
    ensures Inv(Apply(l, k, v, now), required)
  {
    ApplyKeepsPayments(l, k, v, now, required);
    ApplyKeepsInvoices(l, k, v, now, required);
    ApplyKeepsEvents(l, k, v, now, required);
  }

  // ----- adding an invoice, expiring one, detecting a payment

  /** `InvoicesService.create`: a fresh PENDING invoice. */
  function AddInvoice(l: Ledger, inv: Invoice): Ledger {
    l.(invoices := l.invoices + [inv.(status := I.Pending, paidAt := None)])
  }

  function Expire(l: Ledger, i: nat, snapshot: Invoice): Ledger
    requires i < |l.invoices|
  {
    l.(invoices := l.invoices[i := l.invoices[i].(status := I.Expired)],
       events := l.events + [EventFor(i, snapshot, "invoice.expired", I.Expired, None)])
  }

  function Detect(l: Ledger, i: nat, p: Payment): Ledger
    requires i < |l.invoices|
  {
    l.(invoices := l.invoices[i := l.invoices[i].(status := I.Detected)], payments := l.payments + [p])
  }

  lemma AddInvoiceKeepsInv(l: Ledger, inv: Invoice, required: nat)
    requires Inv(l, required)
    ensures Inv(AddInvoice(l, inv), required)
  {
    var l' := AddInvoice(l, inv);
    forall k | 0 <= k < |l'.payments| ensures PaymentFits(l', k, required) {
      assert PaymentFits(l, k, required);
    }
    forall i | 0 <= i < |l'.invoices| ensures InvoiceFits(l', i) {
      if i < |l.invoices| {
        assert InvoiceFits(l, i);
        if j :| Pays(l, j, i) { assert Pays(l', j, i); }
        if e :| Announces(l, e, i) { assert Announces(l', e, i); }
      }
    }
    forall e | 0 <= e < |l'.events| ensures EventFits(l', e) {
      assert EventFits(l, e);
      assert forall j :: Pays(l', j, l'.events[e].invoiceId) ==> Pays(l, j, l'.events[e].invoiceId);
    }
  }

  lemma ExpireKeepsInv(l: Ledger, i: nat, required: nat)
    requires Inv(l, required) && i < |l.invoices| && l.invoices[i].status == I.Pending
    ensures Inv(Expire(l, i, l.invoices[i]), required)
  {
    var l' := Expire(l, i, l.invoices[i]);
    assert InvoiceFits(l, i);
    forall k | 0 <= k < |l'.payments| ensures PaymentFits(l', k, required) && l.payments[k].invoiceId != i {
      assert PaymentFits(l, k, required);
    }
    forall e | 0 <= e < |l.events| ensures EventFits(l', e) && l.events[e].invoiceId != i {
      assert EventFits(l, e);
      assert forall j :: Pays(l', j, l'.events[e].invoiceId) ==> Pays(l, j, l'.events[e].invoiceId);
    }
    assert forall j :: !Pays(l', j, i);
    assert EventFits(l', |l.events|);
    forall j | 0 <= j < |l'.invoices| ensures InvoiceFits(l', j) {
      assert InvoiceFits(l, j);
      assert Announces(l', |l.events|, i);
      if k :| Pays(l, k, j) { assert Pays(l', k, j); }
      if e :| Announces(l, e, j) { assert Announces(l', e, j); }
    }
  }

  /** No payment row has this (network, hash): the unique key the scanner checks. */
  ghost predicate Unseen(l: Ledger, network: string, hash: string) {
    forall k :: 0 <= k < |l.payments| ==> (l.payments[k].network, l.payments[k].txHash) != (network, Some(hash))
  }

  lemma DetectKeepsInv(l: Ledger, i: nat, p: Payment, required: nat)
    requires Inv(l, required) && i < |l.invoices| && l.invoices[i].status == I.Pending
    requires p.invoiceId == i && p.txHash.Some? && Unseen(l, p.network, p.txHash.value)
    requires PairFits(l.invoices[i].(status := I.Detected), p, required)
    ensures Inv(Detect(l, i, p), required)
  {
    var l' := Detect(l, i, p);
    assert InvoiceFits(l, i);
    forall k | 0 <= k < |l.payments| ensures PaymentFits(l', k, required) && l.payments[k].invoiceId != i {
      assert PaymentFits(l, k, required);
    }
    forall e | 0 <= e < |l'.events| ensures EventFits(l', e) {
      assert EventFits(l, e);
      assert forall j :: Pays(l', j, l'.events[e].invoiceId) ==> Pays(l, j, l'.events[e].invoiceId);
    }
    forall j | 0 <= j < |l'.invoices| ensures InvoiceFits(l', j) {
      assert InvoiceFits(l, j);
      assert Pays(l', |l.payments|, i);
      if k :| Pays(l, k, j) { assert Pays(l', k, j); }
      if e :| Announces(l, e, j) { assert Announces(l', e, j); }
    }
  }

  // ----- what the invariant says, in the words of a reader

  /** Event conservation: as many events as invoices with an outcome to announce. */
  lemma EventsCountOutcomes(l: Ledger, required: nat)
    requires Inv(l, required)
    ensures |l.events| == |set i | 0 <= i < |l.invoices| && I.Settled(l.invoices[i].status)|
  {
    var ids := seq(|l.events|, e requires 0 <= e < |l.events| => l.events[e].invoiceId);
    DistinctSize(ids);
    var announced := Members(ids);
    var settled := set i | 0 <= i < |l.invoices| && I.Settled(l.invoices[i].status);
    forall i | i in announced ensures i in settled {
      var e :| 0 <= e < |ids| && ids[e] == i;
      assert EventFits(l, e);
    }
    forall i | i in settled ensures i in announced {
      assert InvoiceFits(l, i);
      var e :| Announces(l, e, i);
      assert ids[e] == i;
    }
    assert announced == settled;
  }

  /** Creating an invoice adds one row with its terms, pending and unpaid, and touches
      nothing else. */
  lemma AddInvoiceMeans(l: Ledger, inv: Invoice)
    ensures var r := AddInvoice(l, inv);
      && |r.invoices| == |l.invoices| + 1 && r.invoices[..|l.invoices|] == l.invoices
      && r.payments == l.payments && r.events == l.events
      && var added := r.invoices[|l.invoices|];
      && added.status == I.Pending && added.paidAt == None
      && added == inv.(status := added.status, paidAt := added.paidAt)
  {
  }

  /** What a merchant reads in an event: its name and status are those of the outcome,
      the terms are those of the invoice, and the hash is that of its payment. */
  lemma EventTellsOutcome(l: Ledger, e: nat, required: nat)
    requires Inv(l, required) && e < |l.events|
    ensures l.events[e].invoiceId < |l.invoices|
    ensures var ev, inv := l.events[e], l.invoices[l.events[e].invoiceId];
      && (inv.status == I.Paid <==> ev.kind == "payment.paid")
      && (inv.status == I.Underpaid <==> ev.kind == "payment.underpaid")
      && (inv.status == I.Overpaid <==> ev.kind == "payment.overpaid")
      && (inv.status == I.Expired <==> ev.kind == "invoice.expired")
      && inv.status in {I.Paid, I.Underpaid, I.Overpaid, I.Expired} && ev.data.status == inv.status
      && ev.organizationId == inv.organizationId && ev.data.invoiceId == ev.invoiceId
      && ev.data.externalId == inv.externalId && ev.data.amount == inv.amount
      && ev.data.currency == inv.currency && ev.data.network == inv.network
      && (inv.status == I.Expired ==> ev.data.txHash == None)
      && (inv.status != I.Expired ==> exists k :: Pays(l, k, ev.invoiceId) && ev.data.txHash == l.payments[k].txHash)
  {
    assert EventFits(l, e);
    var i := l.events[e].invoiceId;
    assert InvoiceFits(l, i);
    assert "payment.paid"[8] == 'p' && "payment.underpaid"[8] == 'u' && "payment.overpaid"[8] == 'o' && "invoice.expired"[8] == 'e';
    if l.invoices[i].status != I.Expired {
      var k :| Pays(l, k, i);
    }
  }

  /** An invoice has no payment while it is pending or when it expired, and otherwise
      exactly one, in the twin status. */
  lemma StatusesCorrespond(l: Ledger, i: nat, required: nat)
    requires Inv(l, required) && i < |l.invoices|
    ensures (forall k :: !Pays(l, k, i)) <==> l.invoices[i].status in {I.Pending, I.Expired}
    ensures forall k :: Pays(l, k, i) ==> Twin(l.invoices[i].status, l.payments[k].status)
    ensures forall j, k :: Pays(l, j, i) && Pays(l, k, i) ==> j == k
  {
    assert InvoiceFits(l, i);
    forall k | Pays(l, k, i) ensures Twin(l.invoices[i].status, l.payments[k].status) {
      assert PaymentFits(l, k, required);
    }
  }

  /** PAID means the exact amount, buried deep enough, with a date. */
  lemma PaidMeansPaid(l: Ledger, i: nat, required: nat)
    requires Inv(l, required) && i < |l.invoices| && l.invoices[i].status == I.Paid
    ensures l.invoices[i].paidAt.Some?
    ensures exists k :: Pays(l, k, i) && l.payments[k].status == P.Confirmed
                        && l.payments[k].receivedAmount == Some(l.invoices[i].amount)
                        && l.payments[k].expectedAmount == l.invoices[i].amount
                        && l.payments[k].confirmations >= required
                        && forall j :: Pays(l, j, i) ==> j == k
  {
    assert InvoiceFits(l, i);
    var k :| Pays(l, k, i);
    assert PaymentFits(l, k, required);
  }
}
