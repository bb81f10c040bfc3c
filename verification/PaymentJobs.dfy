/** The payment jobs as they run: loops over fetched rows that write the shared
    database. Each is proved to compute the pass that the lemmas are about. */
module PaymentJobs {
  import opened Common
  import opened PaymentMatching
  import opened Records
  import opened Expiry
  import opened BlockchainScan
  import opened ScanAgreement
  import opened PaymentConfirm
  import opened PaymentAdvance
  import opened ConfirmationPass
  import I = InvoiceStateMachine
  import P = PaymentStateMachine

  /** The tables the jobs share; `cursors` maps a network to its last scanned block. */
  class Database {
    var invoices: seq<Invoice>
    var payments: seq<Payment>
    var events: seq<WebhookEvent>
    var cursors: map<string, int>

    function Contents(): Ledger
      reads this
    {
      Ledger(invoices, payments, events)
    }

    constructor ()
      ensures Contents() == EMPTY && cursors == map[]
    {
      invoices, payments, events, cursors := [], [], [], map[];
    }
  }

  method ExpireOverdueInvoices(who: Process, db: Database, o: PassOrder, queryTime: int)
    requires Honest(who, o)
    modifies db
    ensures db.cursors == old(db.cursors)
    ensures db.Contents() == AfterExpiry(who, old(db.Contents()), o, queryTime)
  {
    ghost var before := db.Contents();
    var rows := db.invoices;
    var overdue := o.overdue(db.Contents(), queryTime);
    OverdueExist(who, before, o, queryTime);
    var n := 0;
    while n < |overdue|
      invariant 0 <= n <= |overdue|
      invariant db.cursors == old(db.cursors)
      invariant forall i :: i in overdue[..n] ==> i in overdue
      invariant db.Contents() == ExpireRows(before, overdue[..n], before)
    {
      assert I.CanTransition(I.Pending, I.Expired);
      var i := overdue[n];
      assert i in overdue && overdue[..n + 1][..n] == overdue[..n];
      db.invoices := db.invoices[i := db.invoices[i].(status := I.Expired)];
      db.events := db.events + [EventFor(i, rows[i], "invoice.expired", I.Expired, None)];
      n := n + 1;
    }
    assert overdue[..n] == overdue;
  }

  method FailPaymentRow(db: Database, row: Row, now: int) returns (outcome: Outcome)
    requires InLedger(db.Contents(), row)
    modifies db
    ensures Pass(db.Contents(), outcome) == FailPayment(old(db.Contents()), row, now)
    ensures db.cursors == old(db.cursors)
  {
    if !P.CanTransition(row.payment.status, P.Failed) || !I.CanTransition(row.invoice.status, I.Failed) {
      return InvalidTransition;
    }
    var i := row.payment.invoiceId;
    db.payments := db.payments[row.id := db.payments[row.id].(status := P.Failed, updatedAt := now)];
    db.invoices := db.invoices[i := db.invoices[i].(status := I.Failed)];
    return Completed;
  }

  method HandleMissingRow(db: Database, row: Row, now: int) returns (outcome: Outcome)
    requires InLedger(db.Contents(), row)
    modifies db
    ensures Pass(db.Contents(), outcome) == HandleMissingTransaction(old(db.Contents()), row, now)
    ensures db.cursors == old(db.cursors)
  {
    outcome := Completed;
    if row.payment.status == P.Detected {
      outcome := FailPaymentRow(db, row, now);
    } else if row.payment.status == P.Confirming {
      assert P.CanTransition(P.Confirming, P.ReorgDetected);
      db.payments := db.payments[row.id := db.payments[row.id].(status := P.ReorgDetected, updatedAt := now)];
    } else if now - row.payment.updatedAt >= REORG_GRACE_MS {
      outcome := FailPaymentRow(db, row, now);
    }
  }

  method MoveRowToConfirming(db: Database, row: Row, n: nat, now: int) returns (outcome: Outcome)
    requires InLedger(db.Contents(), row)
    modifies db
    ensures Pass(db.Contents(), outcome) == MoveToConfirming(old(db.Contents()), row, n, now)
    ensures db.cursors == old(db.cursors)
  {
    if !P.CanTransition(row.payment.status, P.Confirming) {
      return InvalidTransition;
    }
    if row.invoice.status != I.Confirming {
      if !I.CanTransition(row.invoice.status, I.Confirming) {
        return InvalidTransition;
      }
    }
    var i := row.payment.invoiceId;
    db.payments := db.payments[row.id := db.payments[row.id].(status := P.Confirming, confirmations := n, updatedAt := now)];
    db.invoices := db.invoices[i := db.invoices[i].(status := I.Confirming)];
    return Completed;
  }

  method FinalizeRow(db: Database, row: Row, n: nat, now: int) returns (outcome: Outcome)
    requires InLedger(db.Contents(), row)
    modifies db
    ensures Pass(db.Contents(), outcome) == FinalizePayment(old(db.Contents()), row, n, now)
    ensures db.cursors == old(db.cursors)
  {
    var received := if row.payment.receivedAmount.Some? then row.payment.receivedAmount.value else 0;
    var match_ := EvaluatePaymentAmount(row.payment.expectedAmount, received);
    var paymentStatus, invoiceStatus := PaymentOutcome(match_), InvoiceOutcome(match_);
    if !P.CanTransition(P.Confirming, paymentStatus) || !I.CanTransition(I.Confirming, invoiceStatus) {
      return InvalidTransition;
    }
    var i := row.payment.invoiceId;
    db.payments := db.payments[row.id :=
      db.payments[row.id].(status := paymentStatus, confirmations := n, confirmedAt := Some(now), updatedAt := now)];
    var inv := db.invoices[i].(status := invoiceStatus);
    if invoiceStatus == I.Paid {
      inv := inv.(paidAt := Some(now));
    }
    db.invoices := db.invoices[i := inv];
    db.events := db.events + [EventFor(i, row.invoice, OutcomeKind(match_), invoiceStatus, row.payment.txHash)];
    return Completed;
  }

  method ConfirmOne(db: Database, row: Row, reply: Reply, now: int, required: nat) returns (outcome: Outcome)
    requires InLedger(db.Contents(), row)
    modifies db
    ensures Pass(db.Contents(), outcome) == ConfirmRow(old(db.Contents()), row, reply, now, required)
    ensures db.cursors == old(db.cursors)
  {
    outcome := Completed;
    if row.payment.txHash.None? {
      return;
    }
    if reply.RpcError? {
      return Aborted;
    }
    if reply.NotFound? {
      outcome := HandleMissingRow(db, row, now);
      return;
    }
    var n := reply.confirmations;
    if row.payment.status == P.ReorgDetected || row.payment.status == P.Detected {
      outcome := MoveRowToConfirming(db, row, n, now);
    } else if n < required {
      if n != row.payment.confirmations {
        db.payments := db.payments[row.id := db.payments[row.id].(confirmations := n, updatedAt := now)];
      }
    } else {
      outcome := FinalizeRow(db, row, n, now);
    }
  }

  /** `advanceConfirmations`, one row. */
  method AdvanceOne(db: Database, row: Row, reply: Reply, now: int, required: nat) returns (outcome: Outcome)
    requires InLedger(db.Contents(), row)
    modifies db
    ensures Pass(db.Contents(), outcome) == AdvanceRow(old(db.Contents()), row, reply, now, required)
    ensures db.cursors == old(db.cursors)
  {
    outcome := Completed;
    if row.payment.txHash.None? {
      return;
    }
    if reply.RpcError? {
      return Aborted;
    }
    if reply.NotFound? {
      outcome := FailPaymentRow(db, row, now);
      return;
    }
    var n := reply.confirmations;
    if row.payment.status == P.Detected {
      assert P.CanTransition(P.Detected, P.Confirming) && I.CanTransition(I.Detected, I.Confirming);
      var i := row.payment.invoiceId;
      db.payments := db.payments[row.id := db.payments[row.id].(status := P.Confirming, confirmations := n, updatedAt := now)];
      db.invoices := db.invoices[i := db.invoices[i].(status := I.Confirming)];
    } else if n < required {
      if n != row.payment.confirmations {
        db.payments := db.payments[row.id := db.payments[row.id].(confirmations := n, updatedAt := now)];
      }
    } else {
      outcome := FinalizeRow(db, row, n, now);
    }
  }

  /** The loop over the snapshot. */
  method HandleAll(who: Process, db: Database, rows: seq<Row>, w: World, required: nat) returns (outcome: Outcome)
    requires forall j :: 0 <= j < |rows| ==> InLedger(db.Contents(), rows[j])
    modifies db
    ensures Pass(db.Contents(), outcome) == HandleRows(who, old(db.Contents()), rows, w, required)
    ensures db.cursors == old(db.cursors)
  {
    ghost var read := db.Contents();
    var n := 0;
    while n < |rows|
      invariant 0 <= n <= |rows|
      invariant db.cursors == old(db.cursors)
      invariant Pass(db.Contents(), Completed) == HandleRows(who, read, rows[..n], w, required)
    {
      assert rows[..n + 1][..n] == rows[..n] && InLedger(read, rows[n]);
      var reply := ReplyFor(w, rows[n].payment);
      if who.Worker? {
        outcome := ConfirmOne(db, rows[n], reply, w.clock(rows[n].id), required);
      } else {
        outcome := AdvanceOne(db, rows[n], reply, w.clock(rows[n].id), required);
      }
      n := n + 1;
      if outcome != Completed {
        StoppedStays(who, read, rows, n, w, required);
        return;
      }
    }
    assert rows[..n] == rows;
    outcome := Completed;
  }

  /** `runPaymentConfirm`. */
  method RunPaymentConfirm(db: Database, o: PassOrder, w: World, queryTime: int, required: nat) returns (outcome: Outcome)
    requires Honest(Worker, o) && ForeignKeys(db.Contents())
    modifies db
    ensures Pass(db.Contents(), outcome) == FullPass(Worker, old(db.Contents()), o, w, queryTime, required)
    ensures Inv(old(db.Contents()), required) ==> Inv(db.Contents(), required) && outcome != InvalidTransition
    ensures db.cursors == old(db.cursors)
  {
    ghost var before := db.Contents();
    OverdueExist(Worker, db.Contents(), o, queryTime);
    ExpiryKeepsKeys(db.Contents(), o.overdue(db.Contents(), queryTime));
    ExpireOverdueInvoices(Worker, db, o, queryTime);
    ActiveExist(Worker, db.Contents(), o);
    var rows := ReadRows(db.Contents(), o.active(db.Contents()));
    outcome := HandleAll(Worker, db, rows, w, required);
    if Inv(before, required) {
      FullPassIsSafe(Worker, before, o, w, queryTime, required);
    }
  }

  lemma {:induction false} StoppedStays(who: Process, l: Ledger, rows: seq<Row>, n: nat, w: World, required: nat)
    requires n <= |rows| && forall j :: 0 <= j < |rows| ==> InLedger(l, rows[j])
    requires HandleRows(who, l, rows[..n], w, required).outcome != Completed
    ensures HandleRows(who, l, rows, w, required) == HandleRows(who, l, rows[..n], w, required)
    decreases |rows|
  {
    if n == |rows| {
      assert rows[..n] == rows;
    } else {
      var init := rows[..|rows| - 1];
      assert init[..n] == rows[..n];
      StoppedStays(who, l, init, n, w, required);
    }
  }

  method TryMatchTransfer(db: Database, t: Transfer, q: RowOrder, now: int)
    requires HonestRows(q)
    modifies db
    ensures db.Contents() == q.handle(old(db.Contents()), t, now)
    ensures db.cursors == old(db.cursors)
  {
    assert Handles(q, db.Contents(), t, now);
    var candidates := ReadCandidates(db.Contents(), q.ids(db.Contents(), t));
    var choice := SelectMatchingInvoice(candidates, AsDetected(t));
    if choice.None? || choice.value.id >= |db.invoices| {
      return;
    }
    var i := choice.value.id;
    if AlreadySeen(db.Contents(), db.invoices[i].network, t.txHash) {
      return;
    }
    assert P.CanTransition(P.Pending, P.Detected) && I.CanTransition(I.Pending, I.Detected);
    db.payments := db.payments + [NewPayment(i, db.invoices[i], t, now)];
    db.invoices := db.invoices[i := db.invoices[i].(status := I.Detected)];
  }

  /** The loop over the transfers; the process dies after `diesAt` of them. */
  method MatchAll(db: Database, ts: seq<Transfer>, q: RowOrder, clock: nat -> int, diesAt: nat) returns (alive: bool)
    requires HonestRows(q)
    modifies db
    ensures alive <==> |ts| < diesAt
    ensures db.Contents() == ScanTransfers(old(db.Contents()), if alive then ts else ts[..diesAt], q, clock)
    ensures db.cursors == old(db.cursors)
  {
    var n := 0;
    while n < |ts|
      invariant 0 <= n <= |ts| && n <= diesAt
      invariant db.Contents() == ScanTransfers(old(db.Contents()), ts[..n], q, clock)
      invariant db.cursors == old(db.cursors)
    {
      if n == diesAt {
        return false;
      }
      assert ts[..n + 1][..n] == ts[..n];
      TryMatchTransfer(db, ts[n], q, clock(n));
      n := n + 1;
    }
    assert ts[..n] == ts;
    return n < diesAt;
  }

  /** What the adapter answers during one scan: None is an RPC error. */
  datatype Rpc = Rpc(latest: Option<nat>, fetch: (int, int) -> Option<seq<Transfer>>)

  datatype ScanResult = ScanResult(ledger: Ledger, cursor: int, completed: bool)

  /** A whole scan of one network from its stored cursor. `diesAt` says after how many
      transfers the process dies, if the range has that many. */
  function ScanPass(l: Ledger, cursor: int, rpc: Rpc, q: RowOrder, clock: nat -> int, diesAt: nat): ScanResult {
    if rpc.latest.None? then ScanResult(l, cursor, false)
    else if rpc.latest.value < cursor + 1 then ScanResult(l, cursor, true)
    else
      var fetched := rpc.fetch(cursor + 1, rpc.latest.value);
      if fetched.None? then ScanResult(l, cursor, false)
      else if |fetched.value| < diesAt then ScanResult(ScanTransfers(l, fetched.value, q, clock), rpc.latest.value, true)
      else ScanResult(ScanTransfers(l, fetched.value[..diesAt], q, clock), cursor, false)
  }

  /** `runBlockchainScan`. */
  method RunBlockchainScan(db: Database, network: string, rpc: Rpc, q: RowOrder, clock: nat -> int, diesAt: nat)
    returns (completed: bool)
    requires HonestRows(q)
    modifies db
    ensures network in db.cursors
    ensures ScanResult(db.Contents(), db.cursors[network], completed)
            == ScanPass(old(db.Contents()), if network in old(db.cursors) then old(db.cursors)[network] else -1, rpc, q, clock, diesAt)
    ensures forall required: nat :: Inv(old(db.Contents()), required) ==> Inv(db.Contents(), required)
    ensures forall other :: other != network ==>
      (other in db.cursors <==> other in old(db.cursors)) && (other in db.cursors ==> db.cursors[other] == old(db.cursors)[other])
  {
    if network !in db.cursors {
      db.cursors := db.cursors[network := -1];
    }
    if rpc.latest.None? {
      return false;
    }
    var from := db.cursors[network] + 1;
    if rpc.latest.value < from {
      return true;
    }
    var fetched := rpc.fetch(from, rpc.latest.value);
    if fetched.None? {
      return false;
    }
    ghost var before := db.Contents();
    completed := MatchAll(db, fetched.value, q, clock, diesAt);
    forall required: nat | Inv(before, required) ensures Inv(db.Contents(), required) {
      ScanMeans(before, if completed then fetched.value else fetched.value[..diesAt], q, clock, required);
    }
    if completed {
      db.cursors := db.cursors[network := rpc.latest.value];
    }
  }

  /** A scan killed anywhere and run again, by then perhaps over a longer range, ends with
      the cursor and, but for the times of recording, the ledger of one that was never
      interrupted; each of the three has its own clock and its own order of rows. */
  lemma KilledScanResumes(l: Ledger, cursor: int, rpc: Rpc, seen: seq<Transfer>, later: Rpc, more: seq<Transfer>,
                          first: RowOrder, clock: nat -> int, diesAt: nat, again: RowOrder, clock': nat -> int,
                          whole: RowOrder, clock'': nat -> int, alive: nat)
    requires HonestRows(first) && HonestRows(again) && HonestRows(whole)
    requires ChooseAlike(l, first, whole) && ChooseAlike(l, again, whole)
    requires rpc.latest.Some? && later.latest.Some? && cursor < rpc.latest.value <= later.latest.value
    requires rpc.fetch(cursor + 1, rpc.latest.value) == Some(seen)
    requires later.fetch(cursor + 1, later.latest.value) == Some(seen + more)
    requires diesAt <= |seen| && |seen + more| < alive
    ensures var killed := ScanPass(l, cursor, rpc, first, clock, diesAt);
      var resumed, straight := ScanPass(killed.ledger, killed.cursor, later, again, clock', alive),
                               ScanPass(l, cursor, later, whole, clock'', alive);
      && !killed.completed && resumed.completed && straight.completed
      && resumed.cursor == straight.cursor && SameButTimes(resumed.ledger, straight.ledger)
  {
    var done, rest := seen[..diesAt], seen[diesAt..] + more;
    assert seen + more == done + rest;
    ScanResumes(l, done, rest, first, clock, again, clock', whole, clock'');
  }
}
