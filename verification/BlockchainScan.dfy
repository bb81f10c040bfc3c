/** Matching the transfers of a block range to invoices. The worker's scan
    (apps/worker/src/queues/blockchain-scan.queue.ts) and the API's detection
    (apps/api/src/payments/payments.service.ts) run the same `tryMatchTransfer`. */
module BlockchainScan {
  import opened Common
  import opened PaymentMatching
  import opened Records
  import I = InvoiceStateMachine
  import P = PaymentStateMachine

  datatype Transfer = Transfer(
    txHash: string, network: string, token: string,
    fromAddress: string, toAddress: string, amount: nat, blockNumber: nat)

  // ----- one transfer

  /** The candidate query: addresses are compared exactly, as stored. */
  function Candidates(l: Ledger, t: Transfer): set<nat> {
    set i | 0 <= i < |l.invoices|
      && l.invoices[i].paymentAddress == t.toAddress && l.invoices[i].network == t.network
      && l.invoices[i].token == t.token && l.invoices[i].status == I.Pending
  }

  function AsCandidate(i: nat, inv: Invoice): Candidate {
    Candidate(i, inv.network, inv.token, inv.paymentAddress, inv.amount, inv.createdAt)
  }

  function ReadCandidates(l: Ledger, ids: seq<nat>): (r: seq<Candidate>)
    requires forall i :: i in ids ==> i < |l.invoices|
    ensures |r| == |ids| && forall j :: 0 <= j < |ids| ==> ids[j] < |l.invoices| && r[j] == AsCandidate(ids[j], l.invoices[ids[j]])
  {
    assert forall j :: 0 <= j < |ids| ==> ids[j] in ids;
    seq(|ids|, j requires 0 <= j < |ids| => AsCandidate(ids[j], l.invoices[ids[j]]))
  }

  function AsDetected(t: Transfer): Detected {
    Detected(t.network, t.token, t.toAddress, t.amount)
  }

  predicate AlreadySeen(l: Ledger, network: string, txHash: string) {
    exists k :: 0 <= k < |l.payments| && l.payments[k].network == network && l.payments[k].txHash == Some(txHash)
  }

  function NewPayment(i: nat, inv: Invoice, t: Transfer, now: int): Payment {
    Payment(i, inv.organizationId, inv.network, t.token, inv.amount, Some(t.amount), Some(t.txHash),
            t.fromAddress, t.toAddress, t.blockNumber, 0, P.Detected, Some(now), None, now)
  }

  /** `ids` is the answer of the candidate query. The two transition assertions of
      the code are about constants: Pending to Detected in both tables. */
  function MatchTransfer(l: Ledger, ids: seq<nat>, t: Transfer, now: int): (r: Ledger)
    requires forall i :: i in ids ==> i < |l.invoices|
    ensures |r.invoices| == |l.invoices|
  {
    var choice := SelectMatchingInvoice(ReadCandidates(l, ids), AsDetected(t));
    if choice.None? || choice.value.id >= |l.invoices| then l else
      var i := choice.value.id;
      var inv := l.invoices[i];
      if AlreadySeen(l, inv.network, t.txHash) then l else
        assert I.CanTransition(I.Pending, I.Detected) && P.CanTransition(P.Pending, P.Detected);
        Detect(l, i, NewPayment(i, inv, t, now))
  }

  /** The invoice awaits payment at the transfer's address, on its network, in its token;
      the amount does not matter. */
  predicate CouldPay(t: Transfer, inv: Invoice) {
    && inv.status == I.Pending
    && inv.paymentAddress == t.toAddress && inv.network == t.network && inv.token == t.token
  }

  predicate Payable(l: Ledger, t: Transfer, i: int) {
    0 <= i < |l.invoices| && CouldPay(t, l.invoices[i])
  }

  /** The selection made for a transfer: `i` is the chosen invoice. */
  ghost predicate Chosen(l: Ledger, t: Transfer, i: nat) {
    && Payable(l, t, i)
    && ((exists j :: Payable(l, t, j) && l.invoices[j].amount == t.amount) ==> l.invoices[i].amount == t.amount)
    && (l.invoices[i].amount != t.amount ==>
          forall j :: Payable(l, t, j) ==> l.invoices[i].createdAt <= l.invoices[j].createdAt)
  }

  /** A payment has this network and hash. */
  ghost predicate Recorded(l: Ledger, network: string, txHash: string) {
    exists k :: 0 <= k < |l.payments| && (l.payments[k].network, l.payments[k].txHash) == (network, Some(txHash))
  }

  /** Nothing is left to do for this transfer. */
  ghost predicate DealtWith(l: Ledger, t: Transfer) {
    (forall i :: !Payable(l, t, i)) || Recorded(l, t.network, t.txHash)
  }

  lemma QueriesMean(l: Ledger, t: Transfer)
    ensures forall i :: i in Candidates(l, t) <==> Payable(l, t, i)
    ensures AlreadySeen(l, t.network, t.txHash) <==> Recorded(l, t.network, t.txHash)
  {
    forall k | 0 <= k < |l.payments|
      ensures (l.payments[k].network == t.network && l.payments[k].txHash == Some(t.txHash))
        <==> (l.payments[k].network, l.payments[k].txHash) == (t.network, Some(t.txHash))
    {
    }
  }

  lemma ChoiceIsChosen(l: Ledger, ids: seq<nat>, t: Transfer) returns (i: nat)
    requires Lists(ids, Candidates(l, t)) && exists j :: Payable(l, t, j)
    ensures Chosen(l, t, i)
    ensures SelectMatchingInvoice(ReadCandidates(l, ids), AsDetected(t)) == Some(AsCandidate(i, l.invoices[i]))
  {
    var rows, d := ReadCandidates(l, ids), AsDetected(t);
    QueriesMean(l, t);
    SelectionRule(rows, d);
    forall j | 0 <= j < |ids| ensures MatchesInvoice(rows[j], d) && Payable(l, t, ids[j]) {
      assert ids[j] in ids;
    }
    forall x | Payable(l, t, x) ensures AsCandidate(x, l.invoices[x]) in rows {
      assert x in ids;
      var n :| 0 <= n < |ids| && ids[n] == x;
      assert rows[n] == AsCandidate(x, l.invoices[x]);
    }
    var j: nat :| Payable(l, t, j);
    assert AsCandidate(j, l.invoices[j]) in rows && MatchesInvoice(AsCandidate(j, l.invoices[j]), d);
    var c := SelectMatchingInvoice(rows, d).value;
    var n :| 0 <= n < |rows| && rows[n] == c;
    i := ids[n];
    if x: nat :| Payable(l, t, x) && l.invoices[x].amount == t.amount {
      assert AsCandidate(x, l.invoices[x]).amount == d.amount;
    }
    if l.invoices[i].amount != t.amount {
      forall x | Payable(l, t, x) ensures l.invoices[i].createdAt <= l.invoices[x].createdAt {
        assert AsCandidate(x, l.invoices[x]) in rows && MatchesInvoice(AsCandidate(x, l.invoices[x]), d);
      }
    }
  }

  lemma ChosenIsPayable(l: Ledger, ids: seq<nat>, t: Transfer) returns (i: nat)
    requires Lists(ids, Candidates(l, t)) && SelectMatchingInvoice(ReadCandidates(l, ids), AsDetected(t)).Some?
    ensures Payable(l, t, i)
  {
    QueriesMean(l, t);
    var rows := ReadCandidates(l, ids);
    SelectionRule(rows, AsDetected(t));
    var n :| 0 <= n < |rows| && rows[n] == SelectMatchingInvoice(rows, AsDetected(t)).value;
    assert ids[n] in ids;
    i := ids[n];
  }

  /** A transfer that is dealt with changes nothing; any other is recorded against
      the invoice the selection rule names, whatever the order of the rows. */
  lemma MatchMeans(l: Ledger, ids: seq<nat>, t: Transfer, now: int)
    requires Lists(ids, Candidates(l, t))
    ensures DealtWith(l, t) ==> MatchTransfer(l, ids, t, now) == l
    ensures !DealtWith(l, t) ==>
      exists i: nat :: Chosen(l, t, i) && MatchTransfer(l, ids, t, now) == Detect(l, i, NewPayment(i, l.invoices[i], t, now))
    ensures DealtWith(MatchTransfer(l, ids, t, now), t)
  {
    QueriesMean(l, t);
    if SelectMatchingInvoice(ReadCandidates(l, ids), AsDetected(t)).Some? {
      var j := ChosenIsPayable(l, ids, t);
      var i := ChoiceIsChosen(l, ids, t);
      if !Recorded(l, t.network, t.txHash) {
        var after := Detect(l, i, NewPayment(i, l.invoices[i], t, now));
        assert MatchTransfer(l, ids, t, now) == after;
        assert (after.payments[|l.payments|].network, after.payments[|l.payments|].txHash) == (t.network, Some(t.txHash));
      }
    } else {
      forall j ensures !Payable(l, t, j) {
        if Payable(l, t, j) {
          var i := ChoiceIsChosen(l, ids, t);
        }
      }
    }
  }

  /** Written out: a transfer of any amount to an address at which a pending invoice of
      its network and token waits, and whose hash is new on the network, adds exactly one
      payment, with its hash, amount and block, to such an invoice, which is detected and
      is the best of them; no other row changes. */
  lemma MatchRecords(l: Ledger, ids: seq<nat>, t: Transfer, now: int, j: nat)
    requires Lists(ids, Candidates(l, t))
    requires j < |l.invoices| && l.invoices[j].status == I.Pending && l.invoices[j].paymentAddress == t.toAddress
    requires l.invoices[j].network == t.network && l.invoices[j].token == t.token
    requires forall k :: 0 <= k < |l.payments| ==> (l.payments[k].network, l.payments[k].txHash) != (t.network, Some(t.txHash))
    ensures var r := MatchTransfer(l, ids, t, now);
      && |r.payments| == |l.payments| + 1 && r.payments[..|l.payments|] == l.payments && r.events == l.events
      && var p := r.payments[|l.payments|];
      && p.invoiceId < |l.invoices|
      && var inv := l.invoices[p.invoiceId];
      && inv.status == I.Pending && inv.paymentAddress == t.toAddress && inv.network == t.network && inv.token == t.token
      && (l.invoices[j].amount == t.amount ==> inv.amount == t.amount)
      && (inv.amount != t.amount ==> inv.createdAt <= l.invoices[j].createdAt)
      && p == Payment(p.invoiceId, inv.organizationId, t.network, t.token, inv.amount, Some(t.amount), Some(t.txHash),
                      t.fromAddress, t.toAddress, t.blockNumber, 0, P.Detected, Some(now), None, now)
      && r.invoices == l.invoices[p.invoiceId := inv.(status := I.Detected)]
  {
    MatchMeans(l, ids, t, now);
    assert Payable(l, t, j);
  }

  lemma MatchKeepsInv(l: Ledger, ids: seq<nat>, t: Transfer, now: int, required: nat)
    requires Inv(l, required) && Lists(ids, Candidates(l, t))
    ensures Inv(MatchTransfer(l, ids, t, now), required)
  {
    MatchMeans(l, ids, t, now);
    if !DealtWith(l, t) {
      var i: nat :| Chosen(l, t, i) && MatchTransfer(l, ids, t, now) == Detect(l, i, NewPayment(i, l.invoices[i], t, now));
      assert Unseen(l, t.network, t.txHash);
      DetectKeepsInv(l, i, NewPayment(i, l.invoices[i], t, now), required);
    }
  }

  /** What is dealt with stays so: matching only takes invoices out of Pending and
      only adds hashes. */
  lemma MatchKeepsDealtWith(l: Ledger, ids: seq<nat>, t: Transfer, now: int, other: Transfer)
    requires Lists(ids, Candidates(l, t)) && DealtWith(l, other)
    ensures DealtWith(MatchTransfer(l, ids, t, now), other)
  {
    MatchMeans(l, ids, t, now);
    var r := MatchTransfer(l, ids, t, now);
    if Recorded(l, other.network, other.txHash) {
      var k :| 0 <= k < |l.payments| && (l.payments[k].network, l.payments[k].txHash) == (other.network, Some(other.txHash));
      assert r.payments[k] == l.payments[k];
    } else {
      assert forall i :: Payable(r, other, i) ==> Payable(l, other, i);
    }
  }

  // ----- a list of transfers

  /** In which order the database returns the candidates of a transfer, and what the
      matching of the transfer at some time then makes of the ledger. */
  datatype RowOrder = RowOrder(ids: (Ledger, Transfer) -> seq<nat>, handle: (Ledger, Transfer, int) -> Ledger)

  ghost predicate Handles(q: RowOrder, l: Ledger, t: Transfer, at: int) {
    && Lists(q.ids(l, t), Candidates(l, t))
    && q.handle(l, t, at) == MatchTransfer(l, q.ids(l, t), t, at)
  }

  ghost predicate HonestRows(q: RowOrder) {
    forall l, t, at {:trigger Handles(q, l, t, at)} :: Handles(q, l, t, at)
  }

  /** Any answers to the query make an order of rows. */
  lemma EveryOrderIsHonest(ids: (Ledger, Transfer) -> seq<nat>)
    requires forall l, t :: Lists(ids(l, t), Candidates(l, t))
    ensures HonestRows(RowOrder(ids, (l, t, at) =>
      if forall i :: i in ids(l, t) ==> i < |l.invoices| then MatchTransfer(l, ids(l, t), t, at) else l))
  {
  }

  /** The loop over the transfers; `clock` says when each of them is handled. */
  function ScanTransfers(l: Ledger, ts: seq<Transfer>, q: RowOrder, clock: nat -> int): Ledger {
    if ts == [] then l else
      q.handle(ScanTransfers(l, ts[..|ts| - 1], q, clock), ts[|ts| - 1], clock(|ts| - 1))
  }

  lemma ScanSnoc(l: Ledger, ts: seq<Transfer>, t: Transfer, q: RowOrder, clock: nat -> int)
    ensures ScanTransfers(l, ts + [t], q, clock) == q.handle(ScanTransfers(l, ts, q, clock), t, clock(|ts|))
  {
    assert (ts + [t])[..|ts|] == ts;
  }

  /** The payment records this transfer, against an invoice that was pending at the
      address the transfer went to. */
  ghost predicate FromTransfer(l: Ledger, p: Payment, t: Transfer) {
    && p.invoiceId < |l.invoices|
    && var inv := l.invoices[p.invoiceId];
    && p.txHash == Some(t.txHash) && p.receivedAmount == Some(t.amount) && p.expectedAmount == inv.amount
    && p.toAddress == t.toAddress == inv.paymentAddress
    && p.network == t.network == inv.network && p.token == t.token == inv.token
    && p.blockNumber == t.blockNumber && p.fromAddress == t.fromAddress
    && p.organizationId == inv.organizationId && p.confirmations == 0 && p.confirmedAt == None
    && p.status == P.Detected && inv.status == I.Pending
  }

  ghost predicate OnlyDetects(l: Ledger, r: Ledger) {
    && |l.payments| <= |r.payments| && r.payments[..|l.payments|] == l.payments
    && r.events == l.events && |r.invoices| == |l.invoices|
    && forall i :: 0 <= i < |l.invoices| ==>
         r.invoices[i] == l.invoices[i]
         || (l.invoices[i].status == I.Pending && r.invoices[i] == l.invoices[i].(status := I.Detected))
  }

  ghost predicate HasSource(l: Ledger, p: Payment, ts: seq<Transfer>) {
    exists j :: 0 <= j < |ts| && FromTransfer(l, p, ts[j])
  }

  ghost predicate Sourced(l: Ledger, r: Ledger, ts: seq<Transfer>) {
    forall k :: |l.payments| <= k < |r.payments| ==> HasSource(l, r.payments[k], ts)
  }

  lemma MatchOnlyDetects(l: Ledger, ids: seq<nat>, t: Transfer, now: int)
    requires Lists(ids, Candidates(l, t))
    ensures OnlyDetects(l, MatchTransfer(l, ids, t, now)) && Sourced(l, MatchTransfer(l, ids, t, now), [t])
  {
    MatchMeans(l, ids, t, now);
    if !DealtWith(l, t) {
      var i: nat :| Chosen(l, t, i) && MatchTransfer(l, ids, t, now) == Detect(l, i, NewPayment(i, l.invoices[i], t, now));
      assert FromTransfer(l, NewPayment(i, l.invoices[i], t, now), [t][0]);
    }
  }

  lemma SourcesAddUp(l: Ledger, m: Ledger, r: Ledger, init: seq<Transfer>, t: Transfer)
    requires OnlyDetects(l, m) && OnlyDetects(m, r) && Sourced(l, m, init) && Sourced(m, r, [t])
    ensures OnlyDetects(l, r) && Sourced(l, r, init + [t])
  {
    var ts := init + [t];
    forall k | |l.payments| <= k < |r.payments|
      ensures HasSource(l, r.payments[k], ts)
    {
      if k < |m.payments| {
        assert r.payments[k] == m.payments[k];
        var j :| 0 <= j < |init| && FromTransfer(l, m.payments[k], init[j]);
        assert FromTransfer(l, r.payments[k], ts[j]);
      } else {
        assert FromTransfer(m, r.payments[k], [t][0]);
        assert FromTransfer(l, r.payments[k], ts[|init|]);
      }
    }
    forall i | 0 <= i < |l.invoices|
      ensures r.invoices[i] == l.invoices[i]
              || (l.invoices[i].status == I.Pending && r.invoices[i] == l.invoices[i].(status := I.Detected))
    {
      assert m.invoices[i] == l.invoices[i] || m.invoices[i].status == I.Detected;
    }
  }

  /** What a scan writes: old payments and all events stay, and each new payment
      records one of the transfers. */
  lemma {:induction false} ScanMeans(l: Ledger, ts: seq<Transfer>, q: RowOrder, clock: nat -> int, required: nat)
    requires Inv(l, required) && HonestRows(q)
    ensures var r := ScanTransfers(l, ts, q, clock);
      && Inv(r, required)
      && OnlyDetects(l, r) && Sourced(l, r, ts)
  {
    if ts != [] {
      var init, t := ts[..|ts| - 1], ts[|ts| - 1];
      ScanMeans(l, init, q, clock, required);
      var before, now := ScanTransfers(l, init, q, clock), clock(|init|);
      assert Handles(q, before, t, now) && ts == init + [t];
      MatchKeepsInv(before, q.ids(before, t), t, now, required);
      MatchOnlyDetects(before, q.ids(before, t), t, now);
      SourcesAddUp(l, before, q.handle(before, t, now), init, t);
    }
  }

  ghost predicate AllDealtWith(l: Ledger, ts: seq<Transfer>) {
    forall j :: 0 <= j < |ts| ==> DealtWith(l, ts[j])
  }

  lemma MatchKeepsAll(l: Ledger, q: RowOrder, init: seq<Transfer>, t: Transfer, now: int)
    requires HonestRows(q) && AllDealtWith(l, init)
    ensures AllDealtWith(q.handle(l, t, now), init + [t])
  {
    assert Handles(q, l, t, now);
    MatchMeans(l, q.ids(l, t), t, now);
    forall j | 0 <= j < |init| ensures DealtWith(q.handle(l, t, now), init[j]) {
      MatchKeepsDealtWith(l, q.ids(l, t), t, now, init[j]);
    }
  }

  /** A scan deals with every transfer it was given. */
  lemma {:induction false} ScanDealsWith(l: Ledger, ts: seq<Transfer>, q: RowOrder, clock: nat -> int)
    requires HonestRows(q)
    ensures AllDealtWith(ScanTransfers(l, ts, q, clock), ts)
  {
    if ts != [] {
      var init, t := ts[..|ts| - 1], ts[|ts| - 1];
      ScanDealsWith(l, init, q, clock);
      MatchKeepsAll(ScanTransfers(l, init, q, clock), q, init, t, clock(|init|));
      assert ts == init + [t];
    }
  }

  lemma {:induction false} DealtWithIsSkipped(l: Ledger, ts: seq<Transfer>, q: RowOrder, clock: nat -> int)
    requires HonestRows(q) && AllDealtWith(l, ts)
    ensures ScanTransfers(l, ts, q, clock) == l
  {
    if ts != [] {
      var init, t := ts[..|ts| - 1], ts[|ts| - 1];
      DealtWithIsSkipped(l, init, q, clock);
      assert Handles(q, l, t, clock(|init|));
      MatchMeans(l, q.ids(l, t), t, clock(|init|));
    }
  }

  /** The clock of a scan from its transfer number `n` on. */
  function From(clock: nat -> int, n: nat): nat -> int {
    (j: nat) => clock(n + j)
  }

  lemma {:induction false} ScanSplit(l: Ledger, a: seq<Transfer>, b: seq<Transfer>, q: RowOrder, clock: nat -> int)
    ensures ScanTransfers(l, a + b, q, clock) == ScanTransfers(ScanTransfers(l, a, q, clock), b, q, From(clock, |a|))
  {
    if b == [] {
      assert a + b == a;
    } else {
      ScanSplit(l, a, b[..|b| - 1], q, clock);
      assert (a + b)[..|a + b| - 1] == a + b[..|b| - 1];
    }
  }

  /** Scanning what was scanned before changes nothing, at whatever times and in whatever
      order the rows come back. */
  lemma RescanChangesNothing(l: Ledger, ts: seq<Transfer>, q: RowOrder, clock: nat -> int, q': RowOrder, clock': nat -> int)
    requires HonestRows(q) && HonestRows(q')
    ensures var r := ScanTransfers(l, ts, q, clock); ScanTransfers(r, ts, q', clock') == r
  {
    ScanDealsWith(l, ts, q, clock);
    DealtWithIsSkipped(ScanTransfers(l, ts, q, clock), ts, q', clock');
  }

  /** So running a stopped scan again is running it on from where it stopped. */
  lemma RerunGoesOn(l: Ledger, done: seq<Transfer>, rest: seq<Transfer>, q: RowOrder, clock: nat -> int, q': RowOrder, clock': nat -> int)
    requires HonestRows(q) && HonestRows(q')
    ensures var stopped := ScanTransfers(l, done, q, clock);
      ScanTransfers(stopped, done + rest, q', clock') == ScanTransfers(stopped, rest, q', From(clock', |done|))
  {
    RescanChangesNothing(l, done, q, clock, q', clock');
    ScanSplit(ScanTransfers(l, done, q, clock), done, rest, q', clock');
  }

  ghost predicate RecordsOneOf(p: Payment, ts: seq<Transfer>) {
    exists j :: 0 <= j < |ts| && p.txHash == Some(ts[j].txHash)
  }

  /** Invoice `i` has a detected payment that records one of the transfers. */
  ghost predicate DetectedFrom(l: Ledger, i: nat, ts: seq<Transfer>) {
    exists k :: Pays(l, k, i) && l.payments[k].status == P.Detected && RecordsOneOf(l.payments[k], ts)
  }

  lemma DetectedHasNewPayment(l: Ledger, r: Ledger, ts: seq<Transfer>, required: nat, i: nat)
    requires Inv(l, required) && Inv(r, required) && OnlyDetects(l, r) && Sourced(l, r, ts)
    requires i < |l.invoices| && l.invoices[i].status == I.Pending && r.invoices[i].status == I.Detected
    ensures DetectedFrom(r, i, ts)
  {
    StatusesCorrespond(l, i, required);
    StatusesCorrespond(r, i, required);
    var k :| Pays(r, k, i);
    assert !Pays(l, k, i);
    assert HasSource(l, r.payments[k], ts);
    var j :| 0 <= j < |ts| && FromTransfer(l, r.payments[k], ts[j]);
    assert RecordsOneOf(r.payments[k], ts);
  }

  /** Invoice `i` can be paid by the transfer, and the selection rule puts it before
      every other that can: it alone has the exact amount, or none has and it is older. */
  ghost predicate Preferred(l: Ledger, t: Transfer, i: nat) {
    && Payable(l, t, i)
    && forall j :: Payable(l, t, j) && j != i ==>
         && l.invoices[j].amount != t.amount
         && (l.invoices[i].amount == t.amount || l.invoices[i].createdAt < l.invoices[j].createdAt)
  }

  lemma PreferredIsChosen(l: Ledger, t: Transfer, i: nat, j: nat)
    requires Preferred(l, t, i) && Chosen(l, t, j)
    ensures i == j
  {
  }

  /** Other payments take rivals away and add none. */
  lemma PreferredStays(l: Ledger, r: Ledger, t: Transfer, i: nat)
    requires OnlyDetects(l, r) && Preferred(l, t, i)
    ensures r.invoices[i].status == I.Detected || Preferred(r, t, i)
  {
    assert forall j :: Payable(r, t, j) ==> Payable(l, t, j);
  }

  lemma StaysUnseen(l: Ledger, r: Ledger, ts: seq<Transfer>, t: Transfer)
    requires OnlyDetects(l, r) && Sourced(l, r, ts) && !Recorded(l, t.network, t.txHash)
    requires forall x :: x in ts ==> x.txHash != t.txHash
    ensures !Recorded(r, t.network, t.txHash)
  {
    forall k | 0 <= k < |r.payments| ensures !(r.payments[k].network == t.network && r.payments[k].txHash == Some(t.txHash)) {
      if k < |l.payments| {
        assert r.payments[k] == l.payments[k];
      } else {
        assert HasSource(l, r.payments[k], ts);
        var j :| 0 <= j < |ts| && FromTransfer(l, r.payments[k], ts[j]);
        assert ts[j] in ts;
      }
    }
  }

  lemma PreferredIsMatched(l: Ledger, ids: seq<nat>, t: Transfer, now: int, i: nat)
    requires Lists(ids, Candidates(l, t)) && Preferred(l, t, i) && !Recorded(l, t.network, t.txHash)
    ensures MatchTransfer(l, ids, t, now) == Detect(l, i, NewPayment(i, l.invoices[i], t, now))
  {
    MatchMeans(l, ids, t, now);
    var j: nat :| Chosen(l, t, j) && MatchTransfer(l, ids, t, now) == Detect(l, j, NewPayment(j, l.invoices[j], t, now));
    PreferredIsChosen(l, t, i, j);
  }

  /** Once the scan has got as far as `t`, the invoice preferred for it is detected. */
  lemma PreferredIsDetected(l: Ledger, a: seq<Transfer>, t: Transfer, q: RowOrder, clock: nat -> int, required: nat, i: nat)
    requires Inv(l, required) && HonestRows(q) && Preferred(l, t, i) && !Recorded(l, t.network, t.txHash)
    requires forall x :: x in a ==> x.txHash != t.txHash
    ensures var r := ScanTransfers(l, a + [t], q, clock); i < |r.invoices| && r.invoices[i].status == I.Detected
  {
    ScanMeans(l, a, q, clock, required);
    ScanSnoc(l, a, t, q, clock);
    var m := ScanTransfers(l, a, q, clock);
    assert Handles(q, m, t, clock(|a|));
    PreferredStays(l, m, t, i);
    if m.invoices[i].status == I.Detected {
      MatchOnlyDetects(m, q.ids(m, t), t, clock(|a|));
    } else {
      StaysUnseen(l, m, a, t);
      PreferredIsMatched(m, q.ids(m, t), t, clock(|a|), i);
    }
  }

  /** An invoice preferred for a new transfer of the list is detected by the scan, paid
      by that transfer or by an earlier one; `t` is the first with its hash. */
  lemma ScanDetectsThePreferred(l: Ledger, a: seq<Transfer>, t: Transfer, b: seq<Transfer>, q: RowOrder, clock: nat -> int,
                                required: nat, i: nat)
    requires Inv(l, required) && HonestRows(q) && Preferred(l, t, i) && !Recorded(l, t.network, t.txHash)
    requires forall x :: x in a ==> x.txHash != t.txHash
    ensures var ts := a + [t] + b;
      var r := ScanTransfers(l, ts, q, clock);
      && Inv(r, required) && i < |r.invoices| && r.invoices[i].status == I.Detected
      && DetectedFrom(r, i, ts)
  {
    var ts := a + [t] + b;
    PreferredIsDetected(l, a, t, q, clock, required, i);
    ScanSplit(l, a + [t], b, q, clock);
    ScanMeans(l, a + [t], q, clock, required);
    ScanMeans(ScanTransfers(l, a + [t], q, clock), b, q, From(clock, |a + [t]|), required);
    ScanMeans(l, ts, q, clock, required);
    DetectedHasNewPayment(l, ScanTransfers(l, ts, q, clock), ts, required, i);
  }

  /** When everything else in the list is dealt with, a scan is the match of `t` alone. */
  lemma ScanOfOneNewTransfer(l: Ledger, a: seq<Transfer>, t: Transfer, b: seq<Transfer>, q: RowOrder, clock: nat -> int)
    requires HonestRows(q) && AllDealtWith(l, a) && AllDealtWith(l, b)
    ensures ScanTransfers(l, a + [t] + b, q, clock) == q.handle(l, t, clock(|a|))
  {
    var after := q.handle(l, t, clock(|a|));
    DealtWithIsSkipped(l, a, q, clock);
    ScanSnoc(l, a, t, q, clock);
    MatchKeepsAll(l, q, b, t, clock(|a|));
    forall j | 0 <= j < |b| ensures DealtWith(after, b[j]) {
      assert (b + [t])[j] == b[j];
    }
    DealtWithIsSkipped(after, b, q, From(clock, |a + [t]|));
    ScanSplit(l, a + [t], b, q, clock);
  }

  // ----- a whole scan, written out

  /** After a scan, each of its transfers is recorded under its network and hash, or no
      invoice is pending at its address, on its network, in its token. */
  lemma ScanLeavesNoPayer(l: Ledger, ts: seq<Transfer>, q: RowOrder, clock: nat -> int, t: Transfer, i: nat)
    requires HonestRows(q) && t in ts
    requires var r := ScanTransfers(l, ts, q, clock);
      && i < |r.invoices| && r.invoices[i].status == I.Pending && r.invoices[i].paymentAddress == t.toAddress
      && r.invoices[i].network == t.network && r.invoices[i].token == t.token
    ensures var r := ScanTransfers(l, ts, q, clock);
      exists k :: 0 <= k < |r.payments| && (r.payments[k].network, r.payments[k].txHash) == (t.network, Some(t.txHash))
  {
    ScanDealsWith(l, ts, q, clock);
    var j :| 0 <= j < |ts| && ts[j] == t;
    var r := ScanTransfers(l, ts, q, clock);
    assert DealtWith(r, ts[j]) && Payable(r, t, i);
  }

  lemma MatchedStays(l: Ledger, r: Ledger, k: nat, required: nat)
    requires OnlyDetects(l, r) && Inv(r, required) && k < |l.payments| && l.payments[k].status == P.Detected
    ensures k < |r.payments| && r.payments[k] == l.payments[k] && l.payments[k].invoiceId < |r.invoices|
    ensures r.invoices[l.payments[k].invoiceId].status == I.Detected
  {
    assert r.payments[..|l.payments|][k] == r.payments[k];
    assert PaymentFits(r, k, required);
  }

  /** When the scan comes to a transfer whose hash is new on its network, and some invoice
      is then pending at its address, it is recorded, whatever its amount: the scan ends
      with one payment of that hash, with the transfer's amount, and its invoice detected. */
  lemma ScanRecords(l: Ledger, a: seq<Transfer>, t: Transfer, b: seq<Transfer>, q: RowOrder, clock: nat -> int,
                    required: nat, j: nat) returns (k: nat)
    requires Inv(l, required) && HonestRows(q) && forall x :: x in a ==> x.txHash != t.txHash
    requires forall n :: 0 <= n < |l.payments| ==> (l.payments[n].network, l.payments[n].txHash) != (t.network, Some(t.txHash))
    requires var m := ScanTransfers(l, a, q, clock);
      && j < |m.invoices| && m.invoices[j].status == I.Pending && m.invoices[j].paymentAddress == t.toAddress
      && m.invoices[j].network == t.network && m.invoices[j].token == t.token
    ensures var r := ScanTransfers(l, a + [t] + b, q, clock);
      && k < |r.payments|
      && (r.payments[k].network, r.payments[k].txHash, r.payments[k].receivedAmount) == (t.network, Some(t.txHash), Some(t.amount))
      && (forall n :: 0 <= n < |r.payments| && (r.payments[n].network, r.payments[n].txHash) == (t.network, Some(t.txHash)) ==> n == k)
      && var i := r.payments[k].invoiceId;
      && i < |r.invoices| && r.invoices[i].status == I.Detected && r.invoices[i].paymentAddress == t.toAddress
      && r.invoices[i].network == t.network && r.invoices[i].token == t.token
  {
    var m := ScanTransfers(l, a, q, clock);
    ScanMeans(l, a, q, clock, required);
    assert !Recorded(l, t.network, t.txHash);
    StaysUnseen(l, m, a, t);
    assert Handles(q, m, t, clock(|a|));
    MatchRecords(m, q.ids(m, t), t, clock(|a|), j);
    MatchKeepsInv(m, q.ids(m, t), t, clock(|a|), required);
    var m' := q.handle(m, t, clock(|a|));
    k := |m.payments|;
    ScanSnoc(l, a, t, q, clock);
    ScanSplit(l, a + [t], b, q, clock);
    ScanMeans(m', b, q, From(clock, |a + [t]|), required);
    MatchedStays(m', ScanTransfers(m', b, q, From(clock, |a + [t]|)), k, required);
    TermsStay(m', ScanTransfers(m', b, q, From(clock, |a + [t]|)), m'.payments[k].invoiceId);
  }

  lemma TermsStay(l: Ledger, r: Ledger, i: nat)
    requires OnlyDetects(l, r) && i < |l.invoices|
    ensures (r.invoices[i].paymentAddress, r.invoices[i].network, r.invoices[i].token)
         == (l.invoices[i].paymentAddress, l.invoices[i].network, l.invoices[i].token)
  {
  }
}
