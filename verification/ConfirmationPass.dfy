/** A whole confirmation pass, in the worker and in the API: expire what is overdue,
    read the active payments, then work through them. The loop acts on rows read
    before it began, one transaction each; the lemmas say what that amounts to. */
module ConfirmationPass {
  import opened Common
  import opened Records
  import opened Sweep
  import opened Expiry
  import opened PaymentConfirm
  import opened PaymentAdvance
  import I = InvoiceStateMachine
  import P = PaymentStateMachine

  /** Which of the two programs runs the pass. */
  datatype Process = Worker | Api

  function Active(who: Process, l: Ledger): set<nat> {
    if who.Worker? then ActivePayments(l) else AdvancingPayments(l)
  }

  function HandleRow(who: Process, l: Ledger, row: Row, reply: Reply, now: int, required: nat): (r: Pass)
    requires InLedger(l, row)
    ensures SameShape(l, r.ledger)
  {
    if who.Worker? then ConfirmRow(l, row, reply, now, required) else AdvanceRow(l, row, reply, now, required)
  }

  function TableVerdict(who: Process, p: Payment, reply: Reply, now: int, required: nat): Verdict {
    if who.Worker? then WorkerVerdict(p, reply, now, required) else ApiVerdict(p, reply, required)
  }

  /** The loop over the snapshot, up to its last row or to the row that stops it. */
  function HandleRows(who: Process, l: Ledger, rows: seq<Row>, w: World, required: nat): (r: Pass)
    requires forall j :: 0 <= j < |rows| ==> InLedger(l, rows[j])
    ensures SameShape(l, r.ledger)
  {
    if rows == [] then Pass(l, Completed) else
      var row := rows[|rows| - 1];
      var before := HandleRows(who, l, rows[..|rows| - 1], w, required);
      assert InLedger(l, row);
      if before.outcome != Completed then before
      else HandleRow(who, before.ledger, row, ReplyFor(w, row.payment), w.clock(row.id), required)
  }

  /** What the table decides about each payment, from the rows as first read. */
  ghost function PlanOf(who: Process, payments: seq<Payment>, w: World, required: nat): Plan {
    (k: nat) => if k < |payments|
         then Decision(TableVerdict(who, payments[k], ReplyFor(w, payments[k]), w.clock(k), required), w.clock(k))
         else Decision(Keep, 0)
  }

  ghost predicate Answered(l: Ledger, ids: seq<nat>, w: World) {
    forall k :: k in ids && k < |l.payments| ==> !ReplyFor(w, l.payments[k]).RpcError?
  }

  /** Where an RPC error stops the loop: the number of rows handled before it. */
  ghost function Handled(l: Ledger, ids: seq<nat>, w: World): (n: nat)
    ensures n <= |ids| && Answered(l, ids[..n], w)
    ensures n < |ids| ==> ids[n] < |l.payments| && ReplyFor(w, l.payments[ids[n]]).RpcError?
  {
    if ids == [] then 0 else
      var init := ids[..|ids| - 1];
      var n := Handled(l, init, w);
      assert init[..n] == ids[..n];
      var last := ids[|ids| - 1];
      if n < |init| then assert init[n] == ids[n]; n
      else if last < |l.payments| && ReplyFor(w, l.payments[last]).RpcError? then n
      else assert ids[..|ids|] == ids && ids == init + [last]; |ids|
  }

  lemma VerdictsAllowed(who: Process, p: Payment, reply: Reply, now: int, required: nat)
    ensures Allowed(p.status, TableVerdict(who, p, reply, now, required), required)
  {
  }

  lemma PlanIsAllowed(who: Process, l: Ledger, ids: seq<nat>, w: World, required: nat)
    requires Inv(l, required) && forall k :: k in ids ==> k in Active(who, l)
    ensures PlanAllowed(l, ids, PlanOf(who, l.payments, w, required), required)
  {
    RowsAlwaysExist(l, required);
    forall k | k in ids ensures HasRow(l, k) && Allowed(l.payments[k].status, PlanOf(who, l.payments, w, required)(k).verdict, required) {
      VerdictsAllowed(who, l.payments[k], ReplyFor(w, l.payments[k]), w.clock(k), required);
    }
  }

  lemma HandleRowMatchesTable(who: Process, l: Ledger, row: Row, reply: Reply, now: int, required: nat)
    requires Inv(l, required) && Current(l, row) && row.id in Active(who, l) && !reply.RpcError?
    ensures HandleRow(who, l, row, reply, now, required)
            == Pass(Apply(l, row.id, TableVerdict(who, row.payment, reply, now, required), now), Completed)
  {
    if who.Worker? {
      RowMatchesTable(l, row, reply, now, required);
    } else {
      ApiRowMatchesTable(l, row, reply, now, required);
    }
  }

  /** The step of the induction: the last row of the snapshot is still current when
      its turn comes, because every earlier row is another payment of another invoice. */
  lemma LastRow(who: Process, l: Ledger, init: seq<nat>, last: nat, w: World, required: nat)
    requires Inv(l, required) && Distinct(init) && last !in init
    requires last in Active(who, l) && forall k :: k in init ==> k in Active(who, l)
    ensures HasRow(l, last) && RowsExist(l, init)
    ensures var plan := PlanOf(who, l.payments, w, required);
      var before := ApplyAll(l, init, plan);
      var reply := ReplyFor(w, l.payments[last]);
      HandleRow(who, before, ReadRow(l, last), reply, w.clock(last), required)
      == if reply.RpcError? then Pass(before, Aborted)
         else Pass(Apply(before, last, plan(last).verdict, plan(last).at), Completed)
  {
    var plan := PlanOf(who, l.payments, w, required);
    PlanIsAllowed(who, l, init, w, required);
    RowsAlwaysExist(l, required);
    SweepIsPointwise(l, init, plan, required);
    var before := ApplyAll(l, init, plan);
    assert PaymentUntouched(l, before, last);
    var reply := ReplyFor(w, l.payments[last]);
    if reply.RpcError? {
      assert PaymentFits(l, last, required);
    } else {
      HandleRowMatchesTable(who, before, ReadRow(l, last), reply, w.clock(last), required);
    }
  }

  lemma HandleRowsSnoc(who: Process, l: Ledger, init: seq<nat>, last: nat, w: World, required: nat)
    requires (forall k :: k in init ==> HasRow(l, k)) && HasRow(l, last)
    ensures forall k :: k in init + [last] ==> HasRow(l, k)
    ensures var before := HandleRows(who, l, ReadRows(l, init), w, required);
      && InLedger(before.ledger, ReadRow(l, last))
      && HandleRows(who, l, ReadRows(l, init + [last]), w, required)
         == if before.outcome != Completed then before
            else HandleRow(who, before.ledger, ReadRow(l, last), ReplyFor(w, l.payments[last]), w.clock(last), required)
  {
    var rows := ReadRows(l, init + [last]);
    assert rows[..|init|] == ReadRows(l, init);
    assert rows[|init|] == ReadRow(l, last);
  }

  lemma HandledSnoc(who: Process, l: Ledger, ids: seq<nat>, w: World)
    requires ids != [] && forall k :: k in ids ==> k in Active(who, l)
    ensures ids[|ids| - 1] < |l.payments|
    ensures var init, last := ids[..|ids| - 1], ids[|ids| - 1];
      var m, n := Handled(l, init, w), Handled(l, ids, w);
      && (m < |init| ==> n == m && ids[..n] == init[..m])
      && (m == |init| ==> init[..m] == init)
      && (m == |init| && ReplyFor(w, l.payments[last]).RpcError? ==> n == m && ids[..n] == init)
      && (m == |init| && !ReplyFor(w, l.payments[last]).RpcError? ==> n == |ids| && ids[..n] == ids)
  {
    assert ids[|ids| - 1] in ids;
    var m := Handled(l, ids[..|ids| - 1], w);
    assert ids[..|ids| - 1][..m] == ids[..m];
  }

  lemma {:induction false} PassIsSweep(who: Process, l: Ledger, ids: seq<nat>, w: World, required: nat)
    requires Inv(l, required) && Distinct(ids) && forall k :: k in ids ==> k in Active(who, l)
    ensures RowsExist(l, ids) && RowsExist(l, ids[..Handled(l, ids, w)])
    ensures HandleRows(who, l, ReadRows(l, ids), w, required)
            == Pass(ApplyAll(l, ids[..Handled(l, ids, w)], PlanOf(who, l.payments, w, required)),
                    if Handled(l, ids, w) < |ids| then Aborted else Completed)
  {
    RowsAlwaysExist(l, required);
    if ids != [] {
      var init, last := ids[..|ids| - 1], ids[|ids| - 1];
      var plan := PlanOf(who, l.payments, w, required);
      assert last in ids && ids == init + [last];
      DistinctPrefix(ids, |ids| - 1);
      PassIsSweep(who, l, init, w, required);
      HandledSnoc(who, l, ids, w);
      HandleRowsSnoc(who, l, init, last, w, required);
      if Handled(l, init, w) == |init| {
        LastRow(who, l, init, last, w, required);
        assert ApplyAll(l, ids, plan) == Apply(ApplyAll(l, init, plan), last, plan(last).verdict, plan(last).at);
      }
    }
  }

  /** Every assertion passes, the invariant holds, and the result is the pointwise
      rewrite of the ledger the rows were read from, however stale they got; an RPC
      error only cuts the list of rewritten payments short. */
  lemma PassIsPointwise(who: Process, l: Ledger, ids: seq<nat>, w: World, required: nat)
    requires Inv(l, required) && Distinct(ids) && forall k :: k in ids ==> k in Active(who, l)
    ensures forall k :: 0 <= k < |l.payments| ==> HasRow(l, k)
    ensures RowsExist(l, ids)
    ensures var n := Handled(l, ids, w);
      var r := HandleRows(who, l, ReadRows(l, ids), w, required);
      && r.outcome == (if n < |ids| then Aborted else Completed)
      && Inv(r.ledger, required)
      && Rewritten(l, r.ledger, ids[..n], PlanOf(who, l.payments, w, required))
  {
    var n := Handled(l, ids, w);
    PassIsSweep(who, l, ids, w, required);
    RowsAlwaysExist(l, required);
    DistinctPrefix(ids, n);
    PlanIsAllowed(who, l, ids[..n], w, required);
    SweepIsPointwise(l, ids[..n], PlanOf(who, l.payments, w, required), required);
  }

  lemma HandledPrefix(l: Ledger, ids: seq<nat>, w: World)
    ensures Handled(l, ids[..Handled(l, ids, w)], w) == Handled(l, ids, w)
  {
    var n := Handled(l, ids, w);
    assert forall j :: 0 <= j < n ==> ids[..n][j] in ids[..n];
  }

  lemma HandledAreAnswered(l: Ledger, ids: seq<nat>, w: World, j: nat)
    requires j < Handled(l, ids, w) && ids[j] < |l.payments|
    ensures !ReplyFor(w, l.payments[ids[j]]).RpcError?
  {
    assert ids[..Handled(l, ids, w)][j] == ids[j];
  }

  lemma PrefixCompletes(who: Process, l: Ledger, ids: seq<nat>, w: World, required: nat)
    requires Inv(l, required) && Lists(ids, Active(who, l))
    ensures RowsExist(l, ids[..Handled(l, ids, w)])
    ensures HandleRows(who, l, ReadRows(l, ids[..Handled(l, ids, w)]), w, required)
         == Pass(ApplyAll(l, ids[..Handled(l, ids, w)], PlanOf(who, l.payments, w, required)), Completed)
  {
    var n := Handled(l, ids, w);
    HandledPrefix(l, ids, w);
    DistinctPrefix(ids, n);
    PassIsSweep(who, l, ids[..n], w, required);
    assert ids[..n][..n] == ids[..n];
  }

  /** Up to the error the loop completes, and the error adds nothing. */
  lemma HandledRowsComplete(who: Process, l: Ledger, ids: seq<nat>, w: World, required: nat)
    requires Inv(l, required) && Lists(ids, Active(who, l))
    ensures forall k :: k in ids ==> HasRow(l, k)
    ensures var rows, n := ReadRows(l, ids), Handled(l, ids, w);
      && HandleRows(who, l, rows[..n], w, required) == Pass(HandleRows(who, l, rows, w, required).ledger, Completed)
      && forall j :: 0 <= j < n ==> !ReplyFor(w, rows[j].payment).RpcError?
  {
    PassIsSweep(who, l, ids, w, required);
    PrefixCompletes(who, l, ids, w, required);
    var rows, n := ReadRows(l, ids), Handled(l, ids, w);
    assert rows[..n] == ReadRows(l, ids[..n]);
    forall j | 0 <= j < n ensures !ReplyFor(w, rows[j].payment).RpcError? {
      HandledAreAnswered(l, ids, w, j);
    }
  }

  lemma UninterruptedPass(who: Process, l: Ledger, ids: seq<nat>, w: World, required: nat)
    requires Inv(l, required) && Lists(ids, Active(who, l)) && Answered(l, ids, w)
    ensures forall k :: 0 <= k < |l.payments| ==> HasRow(l, k)
    ensures RowsExist(l, ids)
    ensures var r := HandleRows(who, l, ReadRows(l, ids), w, required);
      && r.outcome == Completed && Inv(r.ledger, required)
      && Rewritten(l, r.ledger, ids, PlanOf(who, l.payments, w, required))
  {
    PassIsPointwise(who, l, ids, w, required);
    assert forall j :: 0 <= j < |ids| ==> ids[j] in ids;
    assert Handled(l, ids, w) == |ids| && ids[..|ids|] == ids;
  }

  /** What either program should make of a payment that it looks at. */
  predicate Rightly(who: Process, p: Payment, reply: Reply, at: int, required: nat, q: Payment) {
    if who.Worker? then RightlyDecided(p, reply, at, required, q) else RightlyAdvanced(p, reply, at, required, q)
  }

  /** The worker looks at detected, confirming and suspect payments, the API at detected
      and confirming ones. */
  predicate LooksAt(who: Process, s: P.Status) {
    s == P.Detected || s == P.Confirming || (who.Worker? && s == P.ReorgDetected)
  }

  lemma ActiveMeans(who: Process, l: Ledger, k: nat)
    requires k < |l.payments|
    ensures k in Active(who, l) <==> LooksAt(who, l.payments[k].status)
  {
  }

  lemma TablesDecideRightly(who: Process, inv: Invoice, p: Payment, reply: Reply, at: int, required: nat)
    requires PairFits(inv, p, required) && LooksAt(who, p.status) && !reply.RpcError?
    ensures var q := After(p, TableVerdict(who, p, reply, at, required), at);
      && Rightly(who, p, reply, at, required, q)
      && RightlyInvoiced(inv, p, q, at, InvoiceAfter(inv, p, TableVerdict(who, p, reply, at, required), at))
  {
    if who.Worker? {
      TableDecidesRightly(p, reply, at, required);
    } else {
      ApiTableDecidesRightly(p, reply, at, required);
    }
  }

  /** Every payment that an uninterrupted pass looks at is rightly decided, and so is its
      invoice. */
  lemma PassDecides(who: Process, l: Ledger, ids: seq<nat>, w: World, required: nat, k: nat)
    requires Inv(l, required) && Lists(ids, Active(who, l)) && Answered(l, ids, w)
    requires k < |l.payments| && LooksAt(who, l.payments[k].status)
    ensures RowsExist(l, ids) && HasRow(l, k)
    ensures var r := HandleRows(who, l, ReadRows(l, ids), w, required);
      var p, i := l.payments[k], l.payments[k].invoiceId;
      && r.outcome == Completed
      && Rightly(who, p, ReplyFor(w, p), w.clock(k), required, r.ledger.payments[k])
      && RightlyInvoiced(l.invoices[i], p, r.ledger.payments[k], w.clock(k), r.ledger.invoices[i])
  {
    UninterruptedPass(who, l, ids, w, required);
    var r := HandleRows(who, l, ReadRows(l, ids), w, required);
    ActiveMeans(who, l, k);
    assert HasRow(l, k) && PaymentRewritten(l, r.ledger, k, PlanOf(who, l.payments, w, required));
    assert PaymentFits(l, k, required);
    TablesDecideRightly(who, l.invoices[l.payments[k].invoiceId], l.payments[k], ReplyFor(w, l.payments[k]), w.clock(k), required);
  }

  // ----- the whole pass, expiry included

  /** In which order the database returns the rows of the two queries of a pass. */
  datatype PassOrder = PassOrder(overdue: (Ledger, int) -> seq<nat>, active: Ledger -> seq<nat>)

  ghost predicate Honest(who: Process, o: PassOrder) {
    && (forall l, t :: Lists(o.overdue(l, t), Overdue(l, t)))
    && (forall l :: Lists(o.active(l), Active(who, l)))
  }

  lemma OverdueExist(who: Process, l: Ledger, o: PassOrder, t: int)
    requires Honest(who, o)
    ensures Lists(o.overdue(l, t), Overdue(l, t))
    ensures forall i :: i in o.overdue(l, t) ==> i < |l.invoices| && l.invoices[i].status == I.Pending
  {
  }

  lemma ActiveExist(who: Process, l: Ledger, o: PassOrder)
    requires Honest(who, o) && ForeignKeys(l)
    ensures Lists(o.active(l), Active(who, l)) && forall k :: k in o.active(l) ==> HasRow(l, k)
  {
  }

  lemma ExpiryKeepsKeys(l: Ledger, ids: seq<nat>)
    requires ForeignKeys(l) && forall i :: i in ids ==> i < |l.invoices|
    ensures ForeignKeys(ExpireRows(l, ids, l))
  {
    forall k | 0 <= k < |l.payments| ensures HasRow(ExpireRows(l, ids, l), k) {
      assert HasRow(l, k);
    }
  }

  ghost function AfterExpiry(who: Process, l: Ledger, o: PassOrder, queryTime: int): Ledger
    requires Honest(who, o)
  {
    OverdueExist(who, l, o, queryTime);
    ExpireRows(l, o.overdue(l, queryTime), l)
  }

  ghost function FullPass(who: Process, l: Ledger, o: PassOrder, w: World, queryTime: int, required: nat): Pass
    requires Honest(who, o) && ForeignKeys(l)
  {
    var l1 := AfterExpiry(who, l, o, queryTime);
    OverdueExist(who, l, o, queryTime);
    ExpiryKeepsKeys(l, o.overdue(l, queryTime));
    ActiveExist(who, l1, o);
    HandleRows(who, l1, ReadRows(l1, o.active(l1)), w, required)
  }

  /** A pass may be cut short, but it never trips an assertion or breaks the invariant. */
  lemma FullPassIsSafe(who: Process, l: Ledger, o: PassOrder, w: World, queryTime: int, required: nat)
    requires Inv(l, required) && Honest(who, o)
    ensures ForeignKeys(l)
    ensures var r := FullPass(who, l, o, w, queryTime, required);
      r.outcome != InvalidTransition && Inv(r.ledger, required)
  {
    RowsAlwaysExist(l, required);
    OverdueExist(who, l, o, queryTime);
    ExpiryIsPointwise(l, o.overdue(l, queryTime), required);
    var l1 := AfterExpiry(who, l, o, queryTime);
    RowsAlwaysExist(l1, required);
    ActiveExist(who, l1, o);
    PassIsPointwise(who, l1, o.active(l1), w, required);
  }

  /** An invoice is expired after a pass exactly when it was before, or was pending and
      overdue when the pass read the table, whatever the rest of the pass does. */
  lemma ExpiredExactlyWhen(who: Process, l: Ledger, o: PassOrder, w: World, queryTime: int, required: nat, i: nat)
    requires Inv(l, required) && Honest(who, o) && i < |l.invoices|
    ensures ForeignKeys(l)
    ensures var r := FullPass(who, l, o, w, queryTime, required).ledger;
      && |r.invoices| == |l.invoices|
      && (r.invoices[i].status == I.Expired <==>
            l.invoices[i].status == I.Expired || (l.invoices[i].status == I.Pending && l.invoices[i].expiresAt < queryTime))
  {
    RowsAlwaysExist(l, required);
    OverdueExist(who, l, o, queryTime);
    ExpiryIsPointwise(l, o.overdue(l, queryTime), required);
    var read := AfterExpiry(who, l, o, queryTime);
    RowsAlwaysExist(read, required);
    ActiveExist(who, read, o);
    var ids := o.active(read);
    PassIsPointwise(who, read, ids, w, required);
    var n := Handled(read, ids, w);
    var r := HandleRows(who, read, ReadRows(read, ids), w, required).ledger;
    StaysExpired(read, r, ids[..n], PlanOf(who, read.payments, w, required), required, i);
  }

  lemma StaysExpired(l: Ledger, r: Ledger, ids: seq<nat>, plan: Plan, required: nat, i: nat)
    requires Inv(l, required) && (forall k :: 0 <= k < |l.payments| ==> HasRow(l, k))
    requires Inv(r, required) && Rewritten(l, r, ids, plan) && i < |l.invoices|
    ensures r.invoices[i].status == I.Expired <==> l.invoices[i].status == I.Expired
  {
    StatusesCorrespond(l, i, required);
    if k :| Pays(l, k, i) {
      assert Pays(r, k, i);
      StatusesCorrespond(r, i, required);
    }
  }
}
