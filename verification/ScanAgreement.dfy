/** Two scans of the same transfers compared: their clocks may differ, and so may the
    order in which the database returns the candidates. */
module ScanAgreement {
  import opened Common
  import opened PaymentMatching
  import opened Records
  import opened Sweep
  import opened BlockchainScan
  import I = InvoiceStateMachine

  predicate SameFactsOfPayment(p: Payment, p': Payment) {
    p' == p.(detectedAt := p'.detectedAt, updatedAt := p'.updatedAt)
  }

  /** Equal but for the times at which payments were recorded. */
  predicate SameButTimes(a: Ledger, b: Ledger) {
    && a.invoices == b.invoices && a.events == b.events && |a.payments| == |b.payments|
    && forall k :: 0 <= k < |a.payments| ==> SameFactsOfPayment(a.payments[k], b.payments[k])
  }

  ghost function ChoiceOf(l: Ledger, ids: seq<nat>, t: Transfer): Option<Candidate>
    requires Lists(ids, Candidates(l, t))
  {
    SelectMatchingInvoice(ReadCandidates(l, ids), AsDetected(t))
  }

  /** The two databases name the same invoice for the transfer. */
  ghost predicate ChooseSame(q: RowOrder, l: Ledger, q': RowOrder, l': Ledger, t: Transfer) {
    Lists(q.ids(l, t), Candidates(l, t)) && Lists(q'.ids(l', t), Candidates(l', t)) ==>
      ChoiceOf(l, q.ids(l, t), t) == ChoiceOf(l', q'.ids(l', t), t)
  }

  /** In whatever ledgers scans that start from `start` get to. */
  ghost predicate ChooseAlike(start: Ledger, q: RowOrder, q': RowOrder) {
    forall l, l', t :: OnlyDetects(start, l) && SameButTimes(l, l') ==> ChooseSame(q, l, q', l', t)
  }

  lemma MatchesAlike(l: Ledger, ids: seq<nat>, l': Ledger, ids': seq<nat>, t: Transfer, at: int, at': int)
    requires Lists(ids, Candidates(l, t)) && Lists(ids', Candidates(l', t)) && SameButTimes(l, l')
    requires ChoiceOf(l, ids, t) == ChoiceOf(l', ids', t)
    ensures SameButTimes(MatchTransfer(l, ids, t, at), MatchTransfer(l', ids', t, at'))
  {
    var choice := ChoiceOf(l, ids, t);
    if choice.Some? && choice.value.id < |l.invoices| {
      SeenAlike(l, l', l.invoices[choice.value.id].network, t.txHash);
    }
  }

  lemma SeenAlike(l: Ledger, l': Ledger, network: string, hash: string)
    requires SameButTimes(l, l')
    ensures AlreadySeen(l, network, hash) <==> AlreadySeen(l', network, hash)
  {
    forall k | 0 <= k < |l.payments|
      ensures l.payments[k].network == l'.payments[k].network && l.payments[k].txHash == l'.payments[k].txHash
    {
      assert SameFactsOfPayment(l.payments[k], l'.payments[k]);
    }
  }

  lemma OnlyDetectsAddsUp(l: Ledger, m: Ledger, r: Ledger)
    requires OnlyDetects(l, m) && OnlyDetects(m, r)
    ensures OnlyDetects(l, r)
  {
    assert r.payments[..|l.payments|] == m.payments[..|l.payments|];
    forall i | 0 <= i < |l.invoices|
      ensures r.invoices[i] == l.invoices[i]
              || (l.invoices[i].status == I.Pending && r.invoices[i] == l.invoices[i].(status := I.Detected))
    {
      assert m.invoices[i] == l.invoices[i] || m.invoices[i].status == I.Detected;
    }
  }

  lemma HandleOnlyDetects(start: Ledger, l: Ledger, q: RowOrder, t: Transfer, at: int)
    requires HonestRows(q) && OnlyDetects(start, l)
    ensures OnlyDetects(start, q.handle(l, t, at))
  {
    assert Handles(q, l, t, at);
    MatchOnlyDetects(l, q.ids(l, t), t, at);
    OnlyDetectsAddsUp(start, l, q.handle(l, t, at));
  }

  lemma HandledAlike(start: Ledger, l: Ledger, q: RowOrder, at: int, l': Ledger, q': RowOrder, at': int, t: Transfer)
    requires HonestRows(q) && HonestRows(q') && ChooseAlike(start, q, q') && OnlyDetects(start, l) && SameButTimes(l, l')
    ensures SameButTimes(q.handle(l, t, at), q'.handle(l', t, at'))
  {
    assert Handles(q, l, t, at) && Handles(q', l', t, at') && ChooseSame(q, l, q', l', t);
    MatchesAlike(l, q.ids(l, t), l', q'.ids(l', t), t, at, at');
  }

  /** Scans of one list from ledgers that are the same but for times stay so. */
  lemma {:induction false} ScansAlike(start: Ledger, l: Ledger, q: RowOrder, clock: nat -> int,
                                      l': Ledger, q': RowOrder, clock': nat -> int, ts: seq<Transfer>)
    requires HonestRows(q) && HonestRows(q') && ChooseAlike(start, q, q') && OnlyDetects(start, l) && SameButTimes(l, l')
    ensures OnlyDetects(start, ScanTransfers(l, ts, q, clock))
    ensures SameButTimes(ScanTransfers(l, ts, q, clock), ScanTransfers(l', ts, q', clock'))
  {
    if ts != [] {
      var init, t := ts[..|ts| - 1], ts[|ts| - 1];
      ScansAlike(start, l, q, clock, l', q', clock', init);
      var m, m' := ScanTransfers(l, init, q, clock), ScanTransfers(l', init, q', clock');
      HandleOnlyDetects(start, m, q, t, clock(|init|));
      HandledAlike(start, m, q, clock(|init|), m', q', clock'(|init|), t);
    }
  }

  /** A scan that stops after any prefix and is run again from the unmoved cursor ends
      where one uninterrupted scan ends, but for the times of recording: the three scans
      have their own clocks and their own orders of rows. */
  lemma ScanResumes(l: Ledger, done: seq<Transfer>, rest: seq<Transfer>, first: RowOrder, clock: nat -> int,
                    again: RowOrder, clock': nat -> int, whole: RowOrder, clock'': nat -> int)
    requires HonestRows(first) && HonestRows(again) && HonestRows(whole)
    requires ChooseAlike(l, first, whole) && ChooseAlike(l, again, whole)
    ensures var stopped := ScanTransfers(l, done, first, clock);
      SameButTimes(ScanTransfers(stopped, done + rest, again, clock'), ScanTransfers(l, done + rest, whole, clock''))
  {
    RerunGoesOn(l, done, rest, first, clock, again, clock');
    ScanSplit(l, done, rest, whole, clock'');
    ScansAlike(l, l, first, clock, l, whole, clock'', done);
    ScansAlike(l, ScanTransfers(l, done, first, clock), again, From(clock', |done|),
               ScanTransfers(l, done, whole, clock''), whole, From(clock'', |done|), rest);
  }

  // ----- when orders of rows choose alike

  /** One order, which does not depend on the times of payments, chooses like itself. */
  ghost predicate Steady(q: RowOrder) {
    forall l, l', t :: SameButTimes(l, l') ==> q.ids(l, t) == q.ids(l', t)
  }

  lemma SteadyChoosesAlike(start: Ledger, q: RowOrder)
    requires Steady(q)
    ensures ChooseAlike(start, q, q)
  {
    forall l, l', t | OnlyDetects(start, l) && SameButTimes(l, l') ensures ChooseSame(q, l, q, l', t) {
      assert Candidates(l, t) == Candidates(l', t);
      if Lists(q.ids(l, t), Candidates(l, t)) {
        assert ReadCandidates(l, q.ids(l, t)) == ReadCandidates(l', q.ids(l', t));
      }
    }
  }

  /** Both are pending and some transfer could pay either. */
  predicate Rivals(a: Invoice, b: Invoice) {
    && a.status == b.status == I.Pending && a.paymentAddress == b.paymentAddress
    && a.network == b.network && a.token == b.token
  }

  /** No two rivals agree in amount or in age. */
  ghost predicate NoTies(l: Ledger) {
    forall i, j :: 0 <= i < j < |l.invoices| && Rivals(l.invoices[i], l.invoices[j]) ==>
      l.invoices[i].amount != l.invoices[j].amount && l.invoices[i].createdAt != l.invoices[j].createdAt
  }

  lemma SameRowsAnyOrder(l: Ledger, ids: seq<nat>, l': Ledger, ids': seq<nat>, t: Transfer)
    requires Lists(ids, Candidates(l, t)) && Lists(ids', Candidates(l', t)) && l.invoices == l'.invoices
    ensures multiset(ReadCandidates(l, ids)) == multiset(ReadCandidates(l', ids'))
  {
    var a, b := ReadCandidates(l, ids), ReadCandidates(l', ids');
    forall c ensures c in a <==> c in b {
      if c in a {
        var j :| 0 <= j < |a| && a[j] == c;
        assert ids[j] in ids && ids[j] in ids';
        var k :| 0 <= k < |ids'| && ids'[k] == ids[j];
        assert b[k] == c;
      }
      if c in b {
        var j :| 0 <= j < |b| && b[j] == c;
        assert ids'[j] in ids' && ids'[j] in ids;
        var k :| 0 <= k < |ids| && ids[k] == ids'[j];
        assert a[k] == c;
      }
    }
    SameMembersSameMultiset(a, b);
  }

  lemma CandidatesDiffer(start: Ledger, l: Ledger, ids: seq<nat>, t: Transfer, c: Candidate, d: Candidate)
    requires NoTies(start) && OnlyDetects(start, l) && Lists(ids, Candidates(l, t))
    requires c in ReadCandidates(l, ids) && d in ReadCandidates(l, ids) && c != d
    ensures c.amount != d.amount && c.createdAt != d.createdAt
  {
    var rows := ReadCandidates(l, ids);
    var j :| 0 <= j < |rows| && rows[j] == c;
    var k :| 0 <= k < |rows| && rows[k] == d;
    assert ids[j] in ids && ids[k] in ids && ids[j] != ids[k];
    assert start.invoices[ids[j]] == l.invoices[ids[j]] && start.invoices[ids[k]] == l.invoices[ids[k]];
  }

  /** Without ties every two orders choose alike. */
  lemma NoTiesChooseAlike(start: Ledger, q: RowOrder, q': RowOrder)
    requires NoTies(start)
    ensures ChooseAlike(start, q, q')
  {
    forall l, l', t | OnlyDetects(start, l) && SameButTimes(l, l') ensures ChooseSame(q, l, q', l', t) {
      var ids, ids' := q.ids(l, t), q'.ids(l', t);
      if Lists(ids, Candidates(l, t)) && Lists(ids', Candidates(l', t)) {
        SameRowsAnyOrder(l, ids, l', ids', t);
        var rows := ReadCandidates(l, ids);
        forall c, d | c in rows && d in rows && c != d ensures c.amount != d.amount && c.createdAt != d.createdAt {
          CandidatesDiffer(start, l, ids, t, c, d);
        }
        SelectionIgnoresRowOrder(rows, ReadCandidates(l', ids'), AsDetected(t));
      }
    }
  }
}
