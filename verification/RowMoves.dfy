/** How rows move from one transaction to the next, in either program. */
module RowMoves {
  import opened Common
  import opened Records
  import opened BlockchainScan
  import I = InvoiceStateMachine
  import P = PaymentStateMachine

  predicate SameTerms(a: Invoice, b: Invoice) {
    b == a.(status := b.status, paidAt := b.paidAt)
  }

  predicate SameFacts(a: Payment, b: Payment) {
    b == a.(status := b.status, confirmations := b.confirmations, confirmedAt := b.confirmedAt, updatedAt := b.updatedAt)
  }

  predicate InvoiceMoves(l: Ledger, l': Ledger, i: nat)
    requires i < |l.invoices| <= |l'.invoices|
  {
    var a, b := l.invoices[i], l'.invoices[i];
    SameTerms(a, b) && (a == b || I.CanTransition(a.status, b.status))
  }

  predicate PaymentMoves(l: Ledger, l': Ledger, k: nat)
    requires k < |l.payments| <= |l'.payments|
  {
    var a, b := l.payments[k], l'.payments[k];
    SameFacts(a, b) && (a.status == b.status || P.CanTransition(a.status, b.status))
  }

  /** Every persisted status change is an edge of its table, rows are born Pending and
      Detected, their terms never change, and events, once written, stay. */
  predicate Moves(l: Ledger, l': Ledger) {
    && |l.invoices| <= |l'.invoices| && |l.payments| <= |l'.payments| && l.events <= l'.events
    && (forall i :: 0 <= i < |l.invoices| ==> InvoiceMoves(l, l', i))
    && (forall k :: 0 <= k < |l.payments| ==> PaymentMoves(l, l', k))
    && (forall i :: |l.invoices| <= i < |l'.invoices| ==> l'.invoices[i].status == I.Pending)
    && (forall k :: |l.payments| <= k < |l'.payments| ==> l'.payments[k].status == P.Detected)
  }

  lemma TableChangesStatus(inv: Invoice, p: Payment, v: Verdict, now: int, required: nat)
    requires PairFits(inv, p, required) && Allowed(p.status, v, required)
    ensures var inv' := InvoiceAfter(inv, p, v, now);
      SameTerms(inv, inv') && (inv == inv' || I.CanTransition(inv.status, inv'.status))
    ensures SameFacts(p, After(p, v, now))
  {
  }

  lemma ApplyMoves(l: Ledger, k: nat, v: Verdict, now: int, required: nat)
    requires Inv(l, required) && HasRow(l, k) && Allowed(l.payments[k].status, v, required)
    ensures Moves(l, Apply(l, k, v, now))
  {
    assert PaymentFits(l, k, required);
    var p := l.payments[k];
    VerdictKeepsPair(l.invoices[p.invoiceId], p, v, now, required);
    TableChangesStatus(l.invoices[p.invoiceId], p, v, now, required);
  }

  lemma MatchMoves(l: Ledger, ids: seq<nat>, t: Transfer, now: int)
    requires Lists(ids, Candidates(l, t))
    ensures Moves(l, MatchTransfer(l, ids, t, now))
  {
    MatchMeans(l, ids, t, now);
  }

  // ----- how often an invoice changes

  predicate Changed(l: Ledger, l': Ledger, i: nat) {
    i < |l.invoices| <= |l'.invoices| && l.invoices[i].status != l'.invoices[i].status
  }

  /** The number of status changes of invoice `i` along a sequence of ledgers. */
  function Changes(ls: seq<Ledger>, i: nat): nat {
    if |ls| < 2 then 0 else
      Changes(ls[..|ls| - 1], i) + if Changed(ls[|ls| - 2], ls[|ls| - 1], i) then 1 else 0
  }

  lemma MoveClimbs(l: Ledger, l': Ledger, i: nat)
    requires Moves(l, l') && i < |l.invoices|
    ensures I.Rank(l'.invoices[i].status) >= I.Rank(l.invoices[i].status) + if Changed(l, l', i) then 1 else 0
  {
    assert InvoiceMoves(l, l', i);
  }

  ghost predicate IsHistory(ls: seq<Ledger>) {
    |ls| > 0 && ls[0] == EMPTY && forall j :: 0 <= j < |ls| - 1 ==> Moves(ls[j], ls[j + 1])
  }

  predicate ChangesBounded(changes: nat, l: Ledger, i: nat) {
    if i < |l.invoices| then changes <= I.Rank(l.invoices[i].status) - I.Rank(I.Pending) else changes == 0
  }

  lemma HistoryBefore(ls: seq<Ledger>)
    requires IsHistory(ls) && |ls| > 1
    ensures IsHistory(ls[..|ls| - 1]) && Moves(ls[|ls| - 2], ls[|ls| - 2 + 1])
  {
  }

  /** The rank of an invoice starts at that of Pending and climbs with every change. */
  lemma {:induction false} ChangesClimb(ls: seq<Ledger>, i: nat)
    requires IsHistory(ls)
    ensures ChangesBounded(Changes(ls, i), ls[|ls| - 1], i)
  {
    if |ls| > 1 {
      HistoryBefore(ls);
      ChangesClimb(ls[..|ls| - 1], i);
      if i < |ls[|ls| - 2].invoices| {
        MoveClimbs(ls[|ls| - 2], ls[|ls| - 1], i);
      }
    }
  }

  lemma ChangesAreFew(ls: seq<Ledger>, i: nat, required: nat)
    requires IsHistory(ls) && Inv(ls[|ls| - 1], required)
    ensures Changes(ls, i) <= 3
  {
    ChangesClimb(ls, i);
    if i < |ls[|ls| - 1].invoices| {
      assert InvoiceFits(ls[|ls| - 1], i);
    }
  }
}
