/** The two programs, and two runs of one program, compared. */
module PassAgreement {
  import opened Common
  import opened Records
  import opened Sweep
  import opened Expiry
  import opened PaymentConfirm
  import opened PaymentAdvance
  import opened ConfirmationPass
  import I = InvoiceStateMachine
  import P = PaymentStateMachine

  /** The adapter answers about every payment the worker would ask about. */
  ghost predicate AllAnswered(l: Ledger, w: World) {
    forall k :: 0 <= k < |l.payments| && k in ActivePayments(l) ==> !ReplyFor(w, l.payments[k]).RpcError?
  }

  /** An uninterrupted pass, seen from the ledger before it. */
  ghost predicate PassRewrites(who: Process, l: Ledger, read: Ledger, ids: seq<nat>, r: Ledger, w: World, required: nat) {
    && read.payments == l.payments
    && |read.invoices| == |l.invoices|
    && (forall i :: 0 <= i < |l.invoices| ==>
          read.invoices[i] == if i in ids then l.invoices[i].(status := I.Expired) else l.invoices[i])
    && (forall k :: 0 <= k < |read.payments| ==> HasRow(read, k))
    && exists active :: Lists(active, Active(who, read)) && Rewritten(read, r, active, PlanOf(who, read.payments, w, required))
  }

  lemma FullPassRewrites(who: Process, l: Ledger, o: PassOrder, w: World, queryTime: int, required: nat)
    requires Inv(l, required) && Honest(who, o) && AllAnswered(l, w)
    ensures ForeignKeys(l)
    ensures var r := FullPass(who, l, o, w, queryTime, required);
      && r.outcome == Completed && Inv(r.ledger, required)
      && PassRewrites(who, l, AfterExpiry(who, l, o, queryTime), o.overdue(l, queryTime), r.ledger, w, required)
  {
    RowsAlwaysExist(l, required);
    OverdueExist(who, l, o, queryTime);
    ExpiryIsPointwise(l, o.overdue(l, queryTime), required);
    var read := AfterExpiry(who, l, o, queryTime);
    RowsAlwaysExist(read, required);
    ActiveExist(who, read, o);
    var active := o.active(read);
    assert Answered(read, active, w) by {
      forall k | k in active && k < |read.payments| ensures !ReplyFor(w, read.payments[k]).RpcError? {
        assert k in ActivePayments(l);
      }
    }
    UninterruptedPass(who, read, active, w, required);
  }

  lemma SameReading(l: Ledger, a: Ledger, aIds: seq<nat>, b: Ledger, bIds: seq<nat>)
    requires |a.invoices| == |b.invoices| == |l.invoices| && (forall i :: i in aIds <==> i in bIds)
    requires forall i :: 0 <= i < |l.invoices| ==> a.invoices[i] == if i in aIds then l.invoices[i].(status := I.Expired) else l.invoices[i]
    requires forall i :: 0 <= i < |l.invoices| ==> b.invoices[i] == if i in bIds then l.invoices[i].(status := I.Expired) else l.invoices[i]
    ensures a.invoices == b.invoices
  {
  }

  /** Two reads of the same rows may differ only in the order of the event table. */
  lemma RewrittenFromEqualRows(a: Ledger, b: Ledger, r: Ledger, ids: seq<nat>, plan: Plan)
    requires a.invoices == b.invoices && a.payments == b.payments
    requires forall k :: 0 <= k < |a.payments| ==> HasRow(a, k)
    requires Rewritten(a, r, ids, plan)
    ensures forall k :: 0 <= k < |b.payments| ==> HasRow(b, k)
    ensures Rewritten(b, r, ids, plan)
  {
    forall k | 0 <= k < |b.payments| ensures HasRow(b, k) {
      assert HasRow(a, k);
    }
    forall k | 0 <= k < |b.payments|
      ensures if k in ids then PaymentRewritten(b, r, k, plan) else PaymentUntouched(b, r, k)
    {
      assert if k in ids then PaymentRewritten(a, r, k, plan) else PaymentUntouched(a, r, k);
    }
    forall i | 0 <= i < |b.invoices| && (forall k :: !Pays(b, k, i)) ensures r.invoices[i] == b.invoices[i] {
      assert forall k :: !Pays(a, k, i) by {
        forall k ensures !Pays(a, k, i) { assert !Pays(b, k, i); }
      }
    }
  }

  lemma PassesAlike(l: Ledger, w: World, required: nat,
                    who: Process, read: Ledger, ids: seq<nat>, r: Ledger,
                    who': Process, read': Ledger, ids': seq<nat>, r': Ledger)
    requires PassRewrites(who, l, read, ids, r, w, required) && PassRewrites(who', l, read', ids', r', w, required)
    requires forall i :: i in ids <==> i in ids'
    requires forall k :: 0 <= k < |l.payments| ==>
      TableVerdict(who, l.payments[k], ReplyFor(w, l.payments[k]), w.clock(k), required)
      == TableVerdict(who', l.payments[k], ReplyFor(w, l.payments[k]), w.clock(k), required)
    ensures r.invoices == r'.invoices && r.payments == r'.payments
  {
    var plan, plan' := PlanOf(who, l.payments, w, required), PlanOf(who', l.payments, w, required);
    SameReading(l, read, ids, read', ids');
    var active :| Lists(active, Active(who, read)) && Rewritten(read, r, active, plan);
    var active' :| Lists(active', Active(who', read')) && Rewritten(read', r', active', plan');
    RewrittenFromEqualRows(read', read, r', active', plan');
    RewrittenAlike(read, r, active, plan, r', active', plan');
  }

  /** The order in which the database returns rows never shows in the result. */
  lemma RowOrderIsInvisible(who: Process, l: Ledger, o: PassOrder, o': PassOrder, w: World, queryTime: int, required: nat)
    requires Inv(l, required) && Honest(who, o) && Honest(who, o') && AllAnswered(l, w)
    ensures ForeignKeys(l)
    ensures SameRows(FullPass(who, l, o, w, queryTime, required).ledger, FullPass(who, l, o', w, queryTime, required).ledger)
  {
    FullPassRewrites(who, l, o, w, queryTime, required);
    FullPassRewrites(who, l, o', w, queryTime, required);
    OverdueExist(who, l, o, queryTime);
    OverdueExist(who, l, o', queryTime);
    var r, r' := FullPass(who, l, o, w, queryTime, required).ledger, FullPass(who, l, o', w, queryTime, required).ledger;
    PassesAlike(l, w, required, who, AfterExpiry(who, l, o, queryTime), o.overdue(l, queryTime), r,
                who, AfterExpiry(who, l, o', queryTime), o'.overdue(l, queryTime), r');
    EventsDetermined(r, r', required);
  }

  /** A payment on which the two programs differ: it was confirming and its transaction
      is gone, or it is a suspect that has reappeared or has run out of time. */
  predicate Divisive(p: Payment, reply: Reply, now: int) {
    || (p.status == P.Confirming && reply.NotFound?)
    || (p.status == P.ReorgDetected && (reply.Found? || now - p.updatedAt >= 600_000))
  }

  lemma DivisiveShows(p: Payment, reply: Reply, now: int, required: nat)
    requires !reply.RpcError? && Divisive(p, reply, now)
    ensures After(p, WorkerVerdict(p, reply, now, required), now) != After(p, ApiVerdict(p, reply, required), now)
  {
  }

  lemma PaymentAfterPass(who: Process, l: Ledger, read: Ledger, ids: seq<nat>, r: Ledger, w: World, required: nat, k: nat)
    requires PassRewrites(who, l, read, ids, r, w, required) && k < |l.payments|
    ensures k < |r.payments|
    ensures r.payments[k]
         == After(l.payments[k], TableVerdict(who, l.payments[k], ReplyFor(w, l.payments[k]), w.clock(k), required), w.clock(k))
  {
    var plan := PlanOf(who, l.payments, w, required);
    var active :| Lists(active, Active(who, read)) && Rewritten(read, r, active, plan);
    assert HasRow(read, k);
    assert if k in active then PaymentRewritten(read, r, k, plan) else PaymentUntouched(read, r, k);
  }

  /** A whole pass, expiry included, rightly decides every payment it looks at, and its
      invoice. */
  lemma FullPassDecides(who: Process, l: Ledger, o: PassOrder, w: World, queryTime: int, required: nat, k: nat)
    requires Inv(l, required) && Honest(who, o) && AllAnswered(l, w)
    requires k < |l.payments| && LooksAt(who, l.payments[k].status)
    ensures ForeignKeys(l)
    ensures var r := FullPass(who, l, o, w, queryTime, required);
      var p, i := l.payments[k], l.payments[k].invoiceId;
      && r.outcome == Completed && k < |r.ledger.payments| && i < |r.ledger.invoices| && i < |l.invoices|
      && Rightly(who, p, ReplyFor(w, p), w.clock(k), required, r.ledger.payments[k])
      && RightlyInvoiced(l.invoices[i], p, r.ledger.payments[k], w.clock(k), r.ledger.invoices[i])
  {
    FullPassRewrites(who, l, o, w, queryTime, required);
    OverdueExist(who, l, o, queryTime);
    ExpiryIsPointwise(l, o.overdue(l, queryTime), required);
    var read := AfterExpiry(who, l, o, queryTime);
    ActiveExist(who, read, o);
    AnsweredAll(who, l, read, o.active(read), w);
    PassDecides(who, read, o.active(read), w, required, k);
    PaidIsNotExpired(l, o.overdue(l, queryTime), k, required);
  }

  lemma AnsweredAll(who: Process, l: Ledger, read: Ledger, active: seq<nat>, w: World)
    requires AllAnswered(l, w) && read.payments == l.payments && Lists(active, Active(who, read))
    ensures Answered(read, active, w)
  {
    forall k | k in active && k < |read.payments| ensures !ReplyFor(w, read.payments[k]).RpcError? {
      assert k in ActivePayments(l);
    }
  }

  lemma PaidIsNotExpired(l: Ledger, ids: seq<nat>, k: nat, required: nat)
    requires Inv(l, required) && k < |l.payments|
    requires forall i :: i in ids ==> i < |l.invoices| && l.invoices[i].status == I.Pending
    ensures l.payments[k].invoiceId < |l.invoices| && l.payments[k].invoiceId !in ids
  {
    assert PaymentFits(l, k, required);
  }

  /** What a completed worker pass makes of a suspect: a missing one fails, and its
      invoice with it, exactly when ten minutes have gone by since it was suspected;
      until then nothing about it changes, its deadline included; and one that is back
      is confirming again, however deep it is, so that only a later pass can settle it. */
  lemma SuspectsAreDecided(l: Ledger, o: PassOrder, w: World, queryTime: int, required: nat, k: nat)
    requires Inv(l, required) && Honest(Worker, o) && AllAnswered(l, w)
    requires k < |l.payments| && l.payments[k].status == P.ReorgDetected
    ensures ForeignKeys(l)
    ensures var r := FullPass(Worker, l, o, w, queryTime, required);
      var p, reply := l.payments[k], ReplyFor(w, l.payments[k]);
      && r.outcome == Completed && k < |r.ledger.payments| && p.invoiceId < |r.ledger.invoices|
      && var q, inv := r.ledger.payments[k], r.ledger.invoices[p.invoiceId];
      && (q.status == P.Failed <==> reply == NotFound && w.clock(k) - p.updatedAt >= 600_000)
      && (q.status == P.Failed ==> inv.status == I.Failed)
      && (reply == NotFound && q.status != P.Failed ==> q == p && inv.status == I.Confirming)
      && (reply.Found? ==> q.status == P.Confirming && q.confirmations == reply.confirmations && inv.status == I.Confirming)
  {
    FullPassRewrites(Worker, l, o, w, queryTime, required);
    var r := FullPass(Worker, l, o, w, queryTime, required).ledger;
    PaymentAfterPass(Worker, l, AfterExpiry(Worker, l, o, queryTime), o.overdue(l, queryTime), r, w, required, k);
    assert k in ActivePayments(l);
    assert r.payments[k].invoiceId == l.payments[k].invoiceId;
    assert PaymentFits(r, k, required);
  }

  /** When the adapter answers about every payment, the worker's pass and the API's
      expire-then-advance phases leave the same invoices, payments and events if and
      only if no payment is divisive. */
  lemma ProgramsAgreeExactlyWhen(l: Ledger, o: PassOrder, o': PassOrder, w: World, queryTime: int, required: nat)
    requires Inv(l, required) && Honest(Worker, o) && Honest(Api, o') && AllAnswered(l, w)
    ensures ForeignKeys(l)
    ensures SameRows(FullPass(Worker, l, o, w, queryTime, required).ledger, FullPass(Api, l, o', w, queryTime, required).ledger)
      <==> forall k :: 0 <= k < |l.payments| ==> !Divisive(l.payments[k], ReplyFor(w, l.payments[k]), w.clock(k))
  {
    FullPassRewrites(Worker, l, o, w, queryTime, required);
    FullPassRewrites(Api, l, o', w, queryTime, required);
    OverdueExist(Worker, l, o, queryTime);
    OverdueExist(Api, l, o', queryTime);
    var r, r' := FullPass(Worker, l, o, w, queryTime, required).ledger, FullPass(Api, l, o', w, queryTime, required).ledger;
    var read, read' := AfterExpiry(Worker, l, o, queryTime), AfterExpiry(Api, l, o', queryTime);
    var ids, ids' := o.overdue(l, queryTime), o'.overdue(l, queryTime);
    if k :| 0 <= k < |l.payments| && Divisive(l.payments[k], ReplyFor(w, l.payments[k]), w.clock(k)) {
      assert k in ActivePayments(l);
      DivisiveShows(l.payments[k], ReplyFor(w, l.payments[k]), w.clock(k), required);
      PaymentAfterPass(Worker, l, read, ids, r, w, required, k);
      PaymentAfterPass(Api, l, read', ids', r', w, required, k);
    } else {
      forall k | 0 <= k < |l.payments|
        ensures TableVerdict(Worker, l.payments[k], ReplyFor(w, l.payments[k]), w.clock(k), required)
             == TableVerdict(Api, l.payments[k], ReplyFor(w, l.payments[k]), w.clock(k), required)
      {
        if k in ActivePayments(l) {
          TablesAgree(l.payments[k], ReplyFor(w, l.payments[k]), w.clock(k), required);
        }
      }
      PassesAlike(l, w, required, Worker, read, ids, r, Api, read', ids', r');
      EventsDetermined(r, r', required);
    }
  }

  /** In particular they agree when no payment is under suspicion and every hash is found. */
  lemma ProgramsAgreeOnAHealthyChain(l: Ledger, o: PassOrder, o': PassOrder, w: World, queryTime: int, required: nat)
    requires Inv(l, required) && Honest(Worker, o) && Honest(Api, o')
    requires forall k :: 0 <= k < |l.payments| ==> l.payments[k].status != P.ReorgDetected
    requires forall k :: 0 <= k < |l.payments| && k in ActivePayments(l) ==> ReplyFor(w, l.payments[k]).Found?
    ensures ForeignKeys(l)
    ensures SameRows(FullPass(Worker, l, o, w, queryTime, required).ledger, FullPass(Api, l, o', w, queryTime, required).ledger)
  {
    ProgramsAgreeExactlyWhen(l, o, o', w, queryTime, required);
    forall k | 0 <= k < |l.payments| ensures !Divisive(l.payments[k], ReplyFor(w, l.payments[k]), w.clock(k)) {
      if l.payments[k].status == P.Confirming {
        assert k in ActivePayments(l);
      }
    }
  }
}
