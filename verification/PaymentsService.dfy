/** The API's in-process poller: apps/api/src/payments/payments.service.ts. */
module PaymentsService {
  import opened Common
  import opened Records
  import opened Sweep
  import opened Expiry
  import opened PaymentMatching
  import opened BlockchainScan
  import opened PaymentConfirm
  import opened PaymentAdvance
  import opened ConfirmationPass
  import opened FakeBlockchain
  import opened PaymentJobs
  import I = InvoiceStateMachine
  import P = PaymentStateMachine

  /** The only network that has an adapter in fake mode. */
  const FAKE_MODE_NETWORK := "base"

  /** How a tick goes: the clock readings of its queries and writes, the transfer at
      which matching throws, if any, and the hashes for which asking does. */
  datatype Course = Course(
    queryAt: int, heightAt: int, matchAt: nat -> int, askAt: string -> int, writeAt: nat -> int,
    throwsAt: Option<nat>, throwsFor: string -> bool)

  ghost predicate Smooth(g: Course) {
    g.throwsAt.None? && forall h :: !g.throwsFor(h)
  }

  /** What the advance phase hears about each hash. */
  function Answers(c: Chain, g: Course): World
    requires c.blockTimeMs > 0
  {
    World(h => if g.throwsFor(h) then RpcError else c.Confirmations(h, g.askAt(h)), g.writeAt)
  }

  function NewTransfers(c: Chain, lastScannedBlock: int, height: int): seq<Transfer>
    requires c.blockTimeMs > 0 && lastScannedBlock >= -1
  {
    if c.CurrentBlock(height) > lastScannedBlock then c.Between(lastScannedBlock + 1, c.CurrentBlock(height)) else []
  }

  predicate ScanThrows(ts: seq<Transfer>, g: Course) {
    g.throwsAt.Some? && g.throwsAt.value < |ts|
  }

  function BeforeThrow(ts: seq<Transfer>, g: Course): seq<Transfer> {
    if ScanThrows(ts, g) then ts[..g.throwsAt.value] else ts
  }

  lemma HandleKeepsKeys(l: Ledger, t: Transfer, q: RowOrder, at: int)
    requires HonestRows(q) && ForeignKeys(l)
    ensures ForeignKeys(q.handle(l, t, at)) && |q.handle(l, t, at).invoices| == |l.invoices|
  {
    assert Handles(q, l, t, at);
    MatchMeans(l, q.ids(l, t), t, at);
    var after := q.handle(l, t, at);
    forall k | 0 <= k < |after.payments| ensures HasRow(after, k) {
      if k < |l.payments| { assert HasRow(l, k); }
    }
  }

  lemma {:induction false} ScanKeepsKeys(l: Ledger, ts: seq<Transfer>, q: RowOrder, clock: nat -> int)
    requires HonestRows(q) && ForeignKeys(l)
    ensures ForeignKeys(ScanTransfers(l, ts, q, clock)) && |ScanTransfers(l, ts, q, clock).invoices| == |l.invoices|
  {
    if ts != [] {
      var init, t := ts[..|ts| - 1], ts[|ts| - 1];
      ScanKeepsKeys(l, init, q, clock);
      HandleKeepsKeys(ScanTransfers(l, init, q, clock), t, q, clock(|init|));
    }
  }

  /** The ledger when the detection phase ends or throws. */
  ghost function AfterDetection(l: Ledger, c: Chain, last: int, o: PassOrder, q: RowOrder, g: Course): Ledger
    requires Honest(Api, o) && HonestRows(q) && c.blockTimeMs > 0 && last >= -1
  {
    ScanTransfers(AfterExpiry(Api, l, o, g.queryAt), BeforeThrow(NewTransfers(c, last, g.heightAt), g), q, g.matchAt)
  }

  ghost function TickPass(l: Ledger, c: Chain, last: int, o: PassOrder, q: RowOrder, g: Course, required: nat): Pass
    requires Honest(Api, o) && HonestRows(q) && c.blockTimeMs > 0 && last >= -1 && ForeignKeys(l)
  {
    var l2 := AfterDetection(l, c, last, o, q, g);
    OverdueExist(Api, l, o, g.queryAt);
    ExpiryKeepsKeys(l, o.overdue(l, g.queryAt));
    ScanKeepsKeys(AfterExpiry(Api, l, o, g.queryAt), BeforeThrow(NewTransfers(c, last, g.heightAt), g), q, g.matchAt);
    ActiveExist(Api, l2, o);
    if ScanThrows(NewTransfers(c, last, g.heightAt), g) then Pass(l2, Aborted)
    else HandleRows(Api, l2, ReadRows(l2, o.active(l2)), Answers(c, g), required)
  }

  lemma DetectionIsSafe(l: Ledger, c: Chain, last: int, o: PassOrder, q: RowOrder, g: Course, required: nat)
    requires Inv(l, required) && Honest(Api, o) && HonestRows(q) && c.blockTimeMs > 0 && last >= -1
    ensures Inv(AfterExpiry(Api, l, o, g.queryAt), required)
    ensures Inv(AfterDetection(l, c, last, o, q, g), required)
  {
    OverdueExist(Api, l, o, g.queryAt);
    ExpiryIsPointwise(l, o.overdue(l, g.queryAt), required);
    ScanMeans(AfterExpiry(Api, l, o, g.queryAt), BeforeThrow(NewTransfers(c, last, g.heightAt), g), q, g.matchAt, required);
  }

  /** A tick from a good ledger keeps the joint invariant and trips no assertion,
      whenever its clock is read and wherever it is cut short. */
  lemma TickIsSafe(l: Ledger, c: Chain, last: int, o: PassOrder, q: RowOrder, g: Course, required: nat)
    requires Inv(l, required) && Honest(Api, o) && HonestRows(q) && c.blockTimeMs > 0 && last >= -1
    ensures ForeignKeys(l)
    ensures TickPass(l, c, last, o, q, g, required).outcome != InvalidTransition
    ensures Inv(TickPass(l, c, last, o, q, g, required).ledger, required)
  {
    RowsAlwaysExist(l, required);
    DetectionIsSafe(l, c, last, o, q, g, required);
    var l2 := AfterDetection(l, c, last, o, q, g);
    RowsAlwaysExist(l2, required);
    ActiveExist(Api, l2, o);
    PassIsPointwise(Api, l2, o.active(l2), Answers(c, g), required);
  }

  /** When the detection phase ends, no transfer that the chain holds above the
      watermark is still waiting: its hash is recorded or no pending invoice fits it. */
  lemma DetectionLeavesNothing(l: Ledger, c: Chain, last: int, o: PassOrder, q: RowOrder, g: Course, t: Transfer)
    requires Honest(Api, o) && HonestRows(q) && c.Valid() && last >= -1
    requires !ScanThrows(NewTransfers(c, last, g.heightAt), g)
    requires t in c.AtBlock(t.blockNumber) && last < t.blockNumber <= c.CurrentBlock(g.heightAt)
    ensures DealtWith(AfterDetection(l, c, last, o, q, g), t)
  {
    NewTransfersAreOnFile(c, last, g.heightAt);
    ScanLeavesNothing(AfterExpiry(Api, l, o, g.queryAt), NewTransfers(c, last, g.heightAt), q, g.matchAt, t);
  }

  lemma ScanLeavesNothing(l: Ledger, ts: seq<Transfer>, q: RowOrder, clock: nat -> int, t: Transfer)
    requires HonestRows(q) && t in ts
    ensures DealtWith(ScanTransfers(l, ts, q, clock), t)
  {
    ScanDealsWith(l, ts, q, clock);
    var j :| 0 <= j < |ts| && ts[j] == t;
  }

  // ----- no tick leaves an invoice Detected

  /** What the advance phase of an undisturbed tick does to an invoice: whatever was
      detected moves on, to Confirming if the chain knows the hash; an invoice without a
      payment stays as it is. */
  ghost predicate MovedOn(l: Ledger, r: Ledger, w: World, i: nat)
    requires i < |l.invoices|
  {
    && |r.invoices| == |l.invoices| && r.invoices[i].status != I.Detected
    && (l.invoices[i].status in {I.Pending, I.Expired} ==> r.invoices[i] == l.invoices[i])
    && (forall k :: Pays(l, k, i) && l.payments[k].status == P.Detected && ReplyFor(w, l.payments[k]).Found? ==>
          r.invoices[i].status == I.Confirming)
  }

  lemma PaidInvoiceMovesOn(l: Ledger, r: Ledger, ids: seq<nat>, w: World, required: nat, k: nat)
    requires Inv(l, required) && Inv(r, required) && Lists(ids, Active(Api, l)) && Answered(l, ids, w)
    requires ForeignKeys(l) && k < |l.payments| && HasRow(l, k)
    requires Rewritten(l, r, ids, PlanOf(Api, l.payments, w, required))
    ensures MovedOn(l, r, w, l.payments[k].invoiceId)
  {
    var i, plan := l.payments[k].invoiceId, PlanOf(Api, l.payments, w, required);
    assert if k in ids then PaymentRewritten(l, r, k, plan) else PaymentUntouched(l, r, k);
    assert Pays(l, k, i) && Pays(r, k, i);
    StatusesCorrespond(l, i, required);
    StatusesCorrespond(r, i, required);
  }

  lemma AdvanceMovesOn(l: Ledger, ids: seq<nat>, w: World, required: nat, i: nat)
    requires Inv(l, required) && Lists(ids, Active(Api, l)) && Answered(l, ids, w) && i < |l.invoices|
    ensures RowsExist(l, ids)
    ensures var r := HandleRows(Api, l, ReadRows(l, ids), w, required);
      r.outcome == Completed && MovedOn(l, r.ledger, w, i)
  {
    UninterruptedPass(Api, l, ids, w, required);
    var r := HandleRows(Api, l, ReadRows(l, ids), w, required).ledger;
    if k :| Pays(l, k, i) {
      assert HasRow(l, k);
      PaidInvoiceMovesOn(l, r, ids, w, required, k);
    } else {
      StatusesCorrespond(l, i, required);
    }
  }

  lemma SmoothIsAnswered(c: Chain, g: Course, l: Ledger, ids: seq<nat>)
    requires Smooth(g) && c.blockTimeMs > 0
    ensures Answered(l, ids, Answers(c, g))
  {
  }

  /** A tick that meets no error completes and leaves no invoice Detected, so nobody who
      waits for it ever sees that status. */
  lemma NoneLeftDetected(l: Ledger, c: Chain, last: int, o: PassOrder, q: RowOrder, g: Course, required: nat, i: nat)
    requires Inv(l, required) && Honest(Api, o) && HonestRows(q) && c.blockTimeMs > 0 && last >= -1 && Smooth(g)
    requires i < |l.invoices|
    ensures ForeignKeys(l) && i < |AfterDetection(l, c, last, o, q, g).invoices|
    ensures var r := TickPass(l, c, last, o, q, g, required);
      r.outcome == Completed && MovedOn(AfterDetection(l, c, last, o, q, g), r.ledger, Answers(c, g), i)
  {
    RowsAlwaysExist(l, required);
    DetectionIsSafe(l, c, last, o, q, g, required);
    var l2 := AfterDetection(l, c, last, o, q, g);
    OverdueExist(Api, l, o, g.queryAt);
    ExpiryKeepsKeys(l, o.overdue(l, g.queryAt));
    ScanKeepsKeys(AfterExpiry(Api, l, o, g.queryAt), NewTransfers(c, last, g.heightAt), q, g.matchAt);
    RowsAlwaysExist(l2, required);
    ActiveExist(Api, l2, o);
    SmoothIsAnswered(c, g, l2, o.active(l2));
    AdvanceMovesOn(l2, o.active(l2), Answers(c, g), required, i);
  }

  // ----- what a tick decides

  /** A tick that meets no error rightly decides every payment that is detected or
      confirming when its detection phase ends, and its invoice. */
  lemma TickDecides(l: Ledger, c: Chain, last: int, o: PassOrder, q: RowOrder, g: Course, required: nat, k: nat)
    requires Inv(l, required) && Honest(Api, o) && HonestRows(q) && c.blockTimeMs > 0 && last >= -1 && Smooth(g)
    requires var l2 := AfterDetection(l, c, last, o, q, g);
      k < |l2.payments| && (l2.payments[k].status == P.Detected || l2.payments[k].status == P.Confirming)
    ensures ForeignKeys(l)
    ensures var l2, r := AfterDetection(l, c, last, o, q, g), TickPass(l, c, last, o, q, g, required);
      var p, i := l2.payments[k], l2.payments[k].invoiceId;
      && r.outcome == Completed && k < |r.ledger.payments| && i < |r.ledger.invoices| && i < |l2.invoices|
      && RightlyAdvanced(p, ReplyFor(Answers(c, g), p), g.writeAt(k), required, r.ledger.payments[k])
      && RightlyInvoiced(l2.invoices[i], p, r.ledger.payments[k], g.writeAt(k), r.ledger.invoices[i])
  {
    RowsAlwaysExist(l, required);
    DetectionIsSafe(l, c, last, o, q, g, required);
    var l2 := AfterDetection(l, c, last, o, q, g);
    RowsAlwaysExist(l2, required);
    ActiveExist(Api, l2, o);
    SmoothIsAnswered(c, g, l2, o.active(l2));
    PassDecides(Api, l2, o.active(l2), Answers(c, g), required, k);
  }

  /** In terms of the chain: a payment whose hash the chain does not know, after a restart
      say, fails with its invoice, however long it was confirming; one that was confirming
      settles exactly when `required` further blocks are due; any other is confirming. */
  lemma TickSettlesExactlyWhen(l: Ledger, c: Chain, last: int, o: PassOrder, q: RowOrder, g: Course, required: nat, k: nat, h: string)
    requires Inv(l, required) && Honest(Api, o) && HonestRows(q) && c.Valid() && last >= -1 && Smooth(g)
    requires var l2 := AfterDetection(l, c, last, o, q, g);
      && k < |l2.payments| && (l2.payments[k].status == P.Detected || l2.payments[k].status == P.Confirming)
      && l2.payments[k].txHash == Some(h)
    ensures ForeignKeys(l)
    ensures var l2, r := AfterDetection(l, c, last, o, q, g), TickPass(l, c, last, o, q, g, required).ledger;
      var p, i := l2.payments[k], l2.payments[k].invoiceId;
      && k < |r.payments| && i < |r.invoices|
      && (r.payments[k].status == P.Failed <==> h !in c.byTxHash)
      && (h !in c.byTxHash ==> r.invoices[i].status == I.Failed)
      && (h in c.byTxHash ==>
            var deep := required == 0 || g.askAt(h) >= c.genesis + (c.byTxHash[h].blockNumber + required) * c.blockTimeMs;
            && (r.payments[k].status == P.Confirming <==> !(p.status == P.Confirming && deep))
            && (r.payments[k].status in {P.Confirmed, P.Underpaid, P.Overpaid} <==> p.status == P.Confirming && deep))
  {
    TickDecides(l, c, last, o, q, g, required, k);
    if h in c.byTxHash {
      ConfirmationsAccrue(c, c.byTxHash[h], required, g.askAt(h));
    }
  }

  // ----- which invoice a simulated payment confirms

  /** The transfer `t` is on the chain above the watermark and has not been recorded. */
  ghost predicate Arrived(l: Ledger, c: Chain, last: int, height: int, t: Transfer) {
    && c.Valid() && t in c.AtBlock(t.blockNumber) && -1 <= last < t.blockNumber <= c.CurrentBlock(height)
    && !Recorded(l, t.network, t.txHash)
  }

  lemma NewTransfersAreOnFile(c: Chain, last: int, height: int)
    requires c.Valid() && last >= -1
    ensures var ts := NewTransfers(c, last, height);
      && Distinct(ts)
      && (forall x :: x in ts ==> x.txHash in c.byTxHash && c.byTxHash[x.txHash] == x)
      && (forall x: Transfer :: x in c.AtBlock(x.blockNumber) && last < x.blockNumber <= c.CurrentBlock(height) ==> x in ts)
  {
    if c.CurrentBlock(height) > last {
      BetweenMeans(c, last + 1, c.CurrentBlock(height));
    }
  }

  /** Cutting a list at one of its members. */
  lemma CutAt<T>(ts: seq<T>, t: T) returns (a: seq<T>, b: seq<T>)
    requires Distinct(ts) && t in ts
    ensures ts == a + [t] + b && forall x :: x in a + b ==> x in ts && x != t
  {
    var n :| 0 <= n < |ts| && ts[n] == t;
    a, b := ts[..n], ts[n + 1..];
  }

  lemma TransferIsScanned(c: Chain, last: int, height: int, t: Transfer) returns (a: seq<Transfer>, b: seq<Transfer>)
    requires c.Valid() && t in c.AtBlock(t.blockNumber) && -1 <= last < t.blockNumber <= c.CurrentBlock(height)
    ensures NewTransfers(c, last, height) == a + [t] + b
    ensures forall x :: x in a + b ==> x.txHash != t.txHash && x in NewTransfers(c, last, height)
    ensures forall x :: x in a + [t] + b ==> x.txHash in c.byTxHash
  {
    NewTransfersAreOnFile(c, last, height);
    a, b := CutAt(NewTransfers(c, last, height), t);
  }

  /** The ledger as the detection phase finds it. */
  ghost predicate OnlyOverdueExpired(l: Ledger, l1: Ledger, now: int) {
    && l1.payments == l.payments && |l1.invoices| == |l.invoices|
    && forall i :: 0 <= i < |l.invoices| ==>
         l1.invoices[i] == if i in Overdue(l, now) then l.invoices[i].(status := I.Expired) else l.invoices[i]
  }

  lemma ExpiryDoesOnlyThat(l: Ledger, o: PassOrder, now: int, required: nat)
    requires Inv(l, required) && Honest(Api, o)
    ensures Inv(AfterExpiry(Api, l, o, now), required)
    ensures OnlyOverdueExpired(l, AfterExpiry(Api, l, o, now), now)
  {
    OverdueExist(Api, l, o, now);
    ExpiryIsPointwise(l, o.overdue(l, now), required);
  }

  /** Invoice `i` is pending and not overdue, and the selection rule puts it before every
      other such invoice that the transfer could pay. */
  ghost predicate AwaitsTransfer(l: Ledger, now: int, t: Transfer, i: nat) {
    && Payable(l, t, i) && l.invoices[i].expiresAt >= now
    && forall j :: Payable(l, t, j) && l.invoices[j].expiresAt >= now && j != i ==>
         && l.invoices[j].amount != t.amount
         && (l.invoices[i].amount == t.amount || l.invoices[i].createdAt < l.invoices[j].createdAt)
  }

  lemma AwaitedIsPreferred(l: Ledger, l1: Ledger, now: int, t: Transfer, i: nat)
    requires OnlyOverdueExpired(l, l1, now) && AwaitsTransfer(l, now, t, i)
    ensures Preferred(l1, t, i)
  {
  }

  lemma RecordedIsFound(c: Chain, g: Course, p: Payment, ts: seq<Transfer>)
    requires c.blockTimeMs > 0 && Smooth(g) && RecordsOneOf(p, ts) && forall x :: x in ts ==> x.txHash in c.byTxHash
    ensures ReplyFor(Answers(c, g), p).Found?
  {
    var j :| 0 <= j < |ts| && p.txHash == Some(ts[j].txHash);
    assert ts[j] in ts;
  }

  lemma DetectedByRecord(l: Ledger, ts: seq<Transfer>, i: nat, c: Chain, g: Course) returns (k: nat)
    requires DetectedFrom(l, i, ts)
    requires c.blockTimeMs > 0 && Smooth(g) && forall x :: x in ts ==> x.txHash in c.byTxHash
    ensures Pays(l, k, i) && l.payments[k].status == P.Detected && ReplyFor(Answers(c, g), l.payments[k]).Found?
  {
    k :| Pays(l, k, i) && l.payments[k].status == P.Detected && RecordsOneOf(l.payments[k], ts);
    RecordedIsFound(c, g, l.payments[k], ts);
  }

  lemma PreferredIsFound(l: Ledger, c: Chain, last: int, q: RowOrder, g: Course, required: nat, i: nat, t: Transfer)
    requires Inv(l, required) && HonestRows(q) && Arrived(l, c, last, g.heightAt, t) && Preferred(l, t, i)
    ensures DetectedFrom(ScanTransfers(l, NewTransfers(c, last, g.heightAt), q, g.matchAt), i, NewTransfers(c, last, g.heightAt))
  {
    var a, b := TransferIsScanned(c, last, g.heightAt, t);
    assert forall x :: x in a ==> x in a + b;
    ScanDetectsThePreferred(l, a, t, b, q, g.matchAt, required, i);
  }

  lemma AwaitedIsDetected(l: Ledger, c: Chain, last: int, o: PassOrder, q: RowOrder, g: Course, required: nat, i: nat, t: Transfer)
    returns (k: nat)
    requires Inv(l, required) && Honest(Api, o) && HonestRows(q) && Smooth(g)
    requires Arrived(l, c, last, g.heightAt, t) && AwaitsTransfer(l, g.queryAt, t, i)
    ensures var l2 := AfterDetection(l, c, last, o, q, g);
      && Pays(l2, k, i) && l2.payments[k].status == P.Detected && ReplyFor(Answers(c, g), l2.payments[k]).Found?
  {
    var l1 := AfterExpiry(Api, l, o, g.queryAt);
    ExpiryDoesOnlyThat(l, o, g.queryAt, required);
    AwaitedIsPreferred(l, l1, g.queryAt, t, i);
    PreferredIsFound(l1, c, last, q, g, required, i, t);
    NewTransfersAreOnFile(c, last, g.heightAt);
    k := DetectedByRecord(AfterDetection(l, c, last, o, q, g), NewTransfers(c, last, g.heightAt), i, c, g);
  }

  /** The tick that follows a transfer takes the invoice awaiting it to Confirming,
      whatever else it finds on the chain. */
  lemma SimulatedPaymentConfirms(l: Ledger, c: Chain, last: int, o: PassOrder, q: RowOrder, g: Course, required: nat, i: nat, t: Transfer)
    requires Inv(l, required) && Honest(Api, o) && HonestRows(q) && Smooth(g)
    requires Arrived(l, c, last, g.heightAt, t) && AwaitsTransfer(l, g.queryAt, t, i)
    ensures ForeignKeys(l)
    ensures var r := TickPass(l, c, last, o, q, g, required);
      r.outcome == Completed && i < |r.ledger.invoices| && r.ledger.invoices[i].status == I.Confirming
  {
    NoneLeftDetected(l, c, last, o, q, g, required, i);
    var k := AwaitedIsDetected(l, c, last, o, q, g, required, i, t);
  }

  /** Whatever the chain holds, a pending invoice comes out of an undisturbed tick
      Confirming, if it was detected, and otherwise Expired or still Pending. */
  lemma PendingComesOut(l: Ledger, c: Chain, last: int, o: PassOrder, q: RowOrder, g: Course, required: nat, i: nat)
    requires Inv(l, required) && Honest(Api, o) && HonestRows(q) && c.Valid() && last >= -1 && Smooth(g)
    requires i < |l.invoices| && l.invoices[i].status == I.Pending
    ensures ForeignKeys(l)
    ensures var r := TickPass(l, c, last, o, q, g, required);
      r.outcome == Completed && i < |r.ledger.invoices| && r.ledger.invoices[i].status in {I.Pending, I.Expired, I.Confirming}
  {
    NoneLeftDetected(l, c, last, o, q, g, required, i);
    DetectionIsSafe(l, c, last, o, q, g, required);
    ExpiryDoesOnlyThat(l, o, g.queryAt, required);
    NewTransfersAreOnFile(c, last, g.heightAt);
    var l1, l2, ts := AfterExpiry(Api, l, o, g.queryAt), AfterDetection(l, c, last, o, q, g), NewTransfers(c, last, g.heightAt);
    ScanMeans(l1, ts, q, g.matchAt, required);
    if l2.invoices[i].status == I.Detected {
      DetectedHasNewPayment(l1, l2, ts, required, i);
      var k := DetectedByRecord(l2, ts, i, c, g);
    }
  }

  /** The invoice that the selection names among those still pending after expiry. */
  ghost predicate Selected(l: Ledger, o: PassOrder, q: RowOrder, now: int, t: Transfer, i: nat)
    requires Honest(Api, o) && HonestRows(q)
  {
    var l1 := AfterExpiry(Api, l, o, now);
    assert Handles(q, l1, t, 0);
    var choice := SelectMatchingInvoice(ReadCandidates(l1, q.ids(l1, t)), AsDetected(t));
    choice.Some? && choice.value.id == i
  }

  lemma ExpiryKeepsDealtWith(l: Ledger, l1: Ledger, now: int, x: Transfer)
    requires OnlyOverdueExpired(l, l1, now) && DealtWith(l, x)
    ensures DealtWith(l1, x)
  {
    assert forall i :: Payable(l1, x, i) ==> Payable(l, x, i);
  }

  lemma DetectionOfOne(l: Ledger, c: Chain, last: int, o: PassOrder, q: RowOrder, g: Course, required: nat, t: Transfer) returns (at: int)
    requires Inv(l, required) && Honest(Api, o) && HonestRows(q) && Smooth(g) && Arrived(l, c, last, g.heightAt, t)
    requires forall x :: x in NewTransfers(c, last, g.heightAt) && x.txHash != t.txHash ==> DealtWith(l, x)
    ensures var l1 := AfterExpiry(Api, l, o, g.queryAt);
      && !Recorded(l1, t.network, t.txHash) && t.txHash in c.byTxHash
      && AfterDetection(l, c, last, o, q, g) == q.handle(l1, t, at)
  {
    var l1 := AfterExpiry(Api, l, o, g.queryAt);
    ExpiryDoesOnlyThat(l, o, g.queryAt, required);
    var a, b := TransferIsScanned(c, last, g.heightAt, t);
    assert t in a + [t] + b;
    forall x | x in a + b ensures DealtWith(l1, x) {
      ExpiryKeepsDealtWith(l, l1, g.queryAt, x);
    }
    assert forall j :: 0 <= j < |a| ==> a[j] in a + b;
    assert forall j :: 0 <= j < |b| ==> b[j] in a + b;
    at := g.matchAt(|a|);
    ScanOfOneNewTransfer(l1, a, t, b, q, g.matchAt);
  }

  /** When nothing else is waiting above the watermark, a pending invoice comes out of
      the tick Confirming if and only if the selection names it; otherwise it expired, if
      it was overdue, or it is still pending. */
  lemma SimulatedPaymentConfirmsExactlyWhen(l: Ledger, c: Chain, last: int, o: PassOrder, q: RowOrder, g: Course, required: nat,
                                            i: nat, t: Transfer)
    requires Inv(l, required) && Honest(Api, o) && HonestRows(q) && Smooth(g) && Arrived(l, c, last, g.heightAt, t)
    requires forall x :: x in NewTransfers(c, last, g.heightAt) && x.txHash != t.txHash ==> DealtWith(l, x)
    requires i < |l.invoices| && l.invoices[i].status == I.Pending
    ensures ForeignKeys(l)
    ensures var r := TickPass(l, c, last, o, q, g, required);
      && r.outcome == Completed && i < |r.ledger.invoices|
      && (r.ledger.invoices[i].status == I.Confirming <==> Selected(l, o, q, g.queryAt, t, i))
      && (r.ledger.invoices[i].status == I.Expired <==> l.invoices[i].expiresAt < g.queryAt)
      && r.ledger.invoices[i].status in {I.Pending, I.Expired, I.Confirming}
  {
    NoneLeftDetected(l, c, last, o, q, g, required, i);
    var at := DetectionOfOne(l, c, last, o, q, g, required, t);
    ExpiryDoesOnlyThat(l, o, g.queryAt, required);
    var l1, l2 := AfterExpiry(Api, l, o, g.queryAt), AfterDetection(l, c, last, o, q, g);
    SelectedIsDetected(l1, q, t, at, i);
    assert Selected(l, o, q, g.queryAt, t, i) <==> l2.invoices[i].status == I.Detected;
    if Selected(l, o, q, g.queryAt, t, i) {
      var k := |l1.payments|;
      assert Pays(l2, k, i) && l2.payments[k].status == P.Detected && l2.payments[k].txHash == Some(t.txHash);
    }
  }

  lemma SelectedIsDetected(l: Ledger, q: RowOrder, t: Transfer, now: int, i: nat)
    requires HonestRows(q) && i < |l.invoices| && !Recorded(l, t.network, t.txHash)
    ensures Lists(q.ids(l, t), Candidates(l, t))
    ensures var r := q.handle(l, t, now);
      var choice := SelectMatchingInvoice(ReadCandidates(l, q.ids(l, t)), AsDetected(t));
      if choice.Some? && choice.value.id == i
      then l.invoices[i].status == I.Pending && r == Detect(l, i, NewPayment(i, l.invoices[i], t, now))
      else i < |r.invoices| && r.invoices[i] == l.invoices[i]
  {
    assert Handles(q, l, t, now);
    QueriesMean(l, t);
    var ids := q.ids(l, t);
    SelectionRule(ReadCandidates(l, ids), AsDetected(t));
    forall j | 0 <= j < |ids| ensures ids[j] in Candidates(l, t) {
      assert ids[j] in ids;
    }
  }

  class Service {
    const db: Database
    const adapter: FakeBlockchainAdapter
    const fakeMode: bool
    var lastScannedBlock: int
    var ticking: bool

    constructor (db: Database, adapter: FakeBlockchainAdapter, fakeMode: bool)
      ensures this.db == db && this.adapter == adapter && this.fakeMode == fakeMode
      ensures lastScannedBlock == -1 && !ticking
    {
      this.db, this.adapter, this.fakeMode := db, adapter, fakeMode;
      lastScannedBlock, ticking := -1, false;
    }

    /** False when matching throws; the watermark then stays where it was. */
    method DetectNewPayments(q: RowOrder, g: Course) returns (ok: bool)
      requires HonestRows(q) && adapter.State().Valid() && lastScannedBlock >= -1
      modifies this`lastScannedBlock, db
      ensures adapter.State() == old(adapter.State())
      ensures var ts := NewTransfers(adapter.State(), old(lastScannedBlock), g.heightAt);
        && (ok <==> !ScanThrows(ts, g))
        && db.Contents() == ScanTransfers(old(db.Contents()), BeforeThrow(ts, g), q, g.matchAt)
      ensures lastScannedBlock == if ok && old(lastScannedBlock) < adapter.State().CurrentBlock(g.heightAt) - 1
                                  then adapter.State().CurrentBlock(g.heightAt) - 1 else old(lastScannedBlock)
    {
      ok := true;
      var latestBlock := adapter.State().CurrentBlock(g.heightAt);
      if latestBlock > lastScannedBlock {
        var transfers := adapter.GetTokenTransfers(lastScannedBlock + 1, latestBlock);
        ok := MatchEach(transfers, q, g);
        if !ok {
          return;
        }
      }
      if lastScannedBlock < latestBlock - 1 {
        lastScannedBlock := latestBlock - 1;
      }
    }

    method MatchEach(transfers: seq<Transfer>, q: RowOrder, g: Course) returns (ok: bool)
      requires HonestRows(q)
      modifies db
      ensures ok <==> !ScanThrows(transfers, g)
      ensures db.Contents() == ScanTransfers(old(db.Contents()), BeforeThrow(transfers, g), q, g.matchAt)
    {
      var n := 0;
      while n < |transfers|
        invariant 0 <= n <= |transfers| && (g.throwsAt.Some? ==> n <= g.throwsAt.value)
        invariant db.Contents() == ScanTransfers(old(db.Contents()), transfers[..n], q, g.matchAt)
      {
        if g.throwsAt == Some(n) {
          return false;
        }
        assert transfers[..n + 1][..n] == transfers[..n];
        TryMatchTransfer(db, transfers[n], q, g.matchAt(n));
        n := n + 1;
      }
      assert transfers[..n] == transfers;
      return true;
    }

    /** A tick that finds another one running does nothing. Any other runs the three
        phases and clears the flag, also when an error in the second or the third cuts it
        short; `ok` says that none did. */
    method Tick(o: PassOrder, q: RowOrder, g: Course, required: nat) returns (ok: bool)
      requires Honest(Api, o) && HonestRows(q) && ForeignKeys(db.Contents())
      requires adapter.State().Valid() && lastScannedBlock >= -1
      modifies this`lastScannedBlock, this`ticking, db
      ensures adapter.State() == old(adapter.State())
      ensures old(ticking) ==> ok && ticking && db.Contents() == old(db.Contents()) && lastScannedBlock == old(lastScannedBlock)
      ensures !old(ticking) ==>
        var c, last := adapter.State(), old(lastScannedBlock);
        var r := TickPass(old(db.Contents()), c, last, o, q, g, required);
        && !ticking && db.Contents() == r.ledger && (ok <==> r.outcome == Completed)
        && lastScannedBlock == if !ScanThrows(NewTransfers(c, last, g.heightAt), g) && last < c.CurrentBlock(g.heightAt) - 1
                               then c.CurrentBlock(g.heightAt) - 1 else last
      ensures Inv(old(db.Contents()), required) ==> Inv(db.Contents(), required)
    {
      ok := true;
      if ticking {
        return;
      }
      ticking := true;
      ghost var before, last := db.Contents(), lastScannedBlock;
      OverdueExist(Api, db.Contents(), o, g.queryAt);
      ExpiryKeepsKeys(db.Contents(), o.overdue(db.Contents(), g.queryAt));
      ExpireOverdueInvoices(Api, db, o, g.queryAt);
      ScanKeepsKeys(db.Contents(), BeforeThrow(NewTransfers(adapter.State(), lastScannedBlock, g.heightAt), g), q, g.matchAt);
      ok := DetectNewPayments(q, g);
      if ok {
        ActiveExist(Api, db.Contents(), o);
        var rows := ReadRows(db.Contents(), o.active(db.Contents()));
        var outcome := HandleAll(Api, db, rows, Answers(adapter.State(), g), required);
        ok := outcome == Completed;
      }
      ticking := false;
      if Inv(before, required) {
        TickIsSafe(before, adapter.State(), last, o, q, g, required);
      }
    }

    /** `doSimulatePayment`. When no other tick is running, what is returned is the
        invoice after a whole tick. */
    method DoSimulatePayment(id: nat, amount: Option<nat>, txHash: string, fromAddress: string, now: int,
                             o: PassOrder, q: RowOrder, g: Course, required: nat)
      returns (r: Simulation)
      requires id < |db.invoices| && txHash !in adapter.transfersByTxHash
      requires Honest(Api, o) && HonestRows(q) && ForeignKeys(db.Contents())
      requires adapter.State().Valid() && lastScannedBlock >= -1
      modifies this`lastScannedBlock, this`ticking, db, adapter
      ensures r.Refused? <==>
        old(db.invoices[id].status) != I.Pending || old(db.invoices[id].network) != "base" || !fakeMode
      ensures r.Refused? ==> db.Contents() == old(db.Contents()) && adapter.State() == old(adapter.State())
      ensures !r.Refused? ==>
        var inv := old(db.invoices[id]);
        var t := Transfer(txHash, inv.network, inv.token, fromAddress, inv.paymentAddress,
                          if amount.Some? then amount.value else inv.amount, old(adapter.State()).CurrentBlock(now));
        && adapter.State() == old(adapter.State()).File(t) && adapter.State().Valid()
        && (old(ticking) ==> db.Contents() == old(db.Contents()) && r.Stored?)
        && (!old(ticking) ==>
              var p := TickPass(old(db.Contents()), adapter.State(), old(lastScannedBlock), o, q, g, required);
              db.Contents() == p.ledger && (r.Stored? <==> p.outcome == Completed))
        && id < |db.invoices| && (r.Stored? ==> r.invoice == db.invoices[id])
      ensures r.Stored? && !old(ticking) && Inv(old(db.Contents()), required) && Smooth(g) ==>
        r.invoice.status in {I.Pending, I.Expired, I.Confirming}
    {
      var inv := db.invoices[id];
      if inv.status != I.Pending || inv.network != FAKE_MODE_NETWORK || !fakeMode {
        return Refused;
      }
      ghost var before, last := db.Contents(), lastScannedBlock;
      var t := adapter.SimulatePayment(txHash, inv.network, inv.token, fromAddress, inv.paymentAddress,
                                       if amount.Some? then amount.value else inv.amount, now);
      TickKeepsIds(db.Contents(), adapter.State(), lastScannedBlock, o, q, g, required);
      if Inv(before, required) && Smooth(g) {
        PendingComesOut(before, adapter.State(), last, o, q, g, required, id);
      }
      var ok := Tick(o, q, g, required);
      return if ok then Stored(db.invoices[id]) else TickFailed;
    }
  }

  /** The answer to a simulation: refused, an error out of the tick, or the stored invoice. */
  datatype Simulation = Refused | TickFailed | Stored(invoice: Invoice)

  lemma TickKeepsIds(l: Ledger, c: Chain, last: int, o: PassOrder, q: RowOrder, g: Course, required: nat)
    requires Honest(Api, o) && HonestRows(q) && c.blockTimeMs > 0 && last >= -1 && ForeignKeys(l)
    ensures |TickPass(l, c, last, o, q, g, required).ledger.invoices| == |l.invoices|
  {
    OverdueExist(Api, l, o, g.queryAt);
    ExpiryKeepsKeys(l, o.overdue(l, g.queryAt));
    ScanKeepsKeys(AfterExpiry(Api, l, o, g.queryAt), BeforeThrow(NewTransfers(c, last, g.heightAt), g), q, g.matchAt);
  }
}
