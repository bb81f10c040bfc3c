/** Ticks of the in-process poller, run without anything interleaving, are runs of its
    machine: the clock may move between any two queries and rows, and an error may stop a
    tick at any transfer or row. */
module TicksAreRuns {
  import opened Common
  import opened Records
  import opened Expiry
  import opened BlockchainScan
  import opened PaymentConfirm
  import opened PaymentAdvance
  import opened ConfirmationPass
  import opened FakeBlockchain
  import opened TimedRuns
  import opened ApiPipeline
  import opened PaymentsService
  import Pipeline
  import J = JobsAreRuns

  ghost function ApiMachine(required: nat): Machine<ApiState, ApiStep> {
    Machine((s, t) => Can(s, t), (s, t) => if Can(s, t) then Next(s, t, required) else s,
            (s: ApiState) => s.now, (s: ApiState, at) => s.(now := at),
            (s: ApiState, at) => Elapse(if at < s.now then 0 else at - s.now))
  }

  ghost predicate Gets(s: ApiState, r: ApiState, required: nat) {
    Reaches(ApiMachine(required), s, r)
  }

  lemma StepGets(s: ApiState, mid: ApiState, at: int, step: ApiStep, required: nat)
    requires Gets(s, mid, required) && mid.now <= at && Can(mid.(now := at), step)
    ensures Gets(s, Next(mid.(now := at), step, required), required)
  {
    TakesAt(ApiMachine(required), s, mid, at, step);
  }

  lemma RunGoesOn(states: seq<ApiState>, steps: seq<ApiStep>, r: ApiState, required: nat)
    returns (states': seq<ApiState>, steps': seq<ApiStep>)
    requires IsApiRun(states, steps, required) && Gets(states[|steps|], r, required)
    ensures IsApiRun(states', steps', required) && states <= states' && steps <= steps' && states'[|steps'|] == r
  {
    var m := ApiMachine(required);
    forall i {:trigger steps[i]} | 0 <= i < |steps| ensures m.enabled(states[i], steps[i]) && states[i + 1] == m.next(states[i], steps[i]) {
    }
    states', steps' := GoesOn(m, states, steps, r);
    assert states'[0] == states[0];
    forall i | 0 <= i < |steps'| ensures Can(states'[i], steps'[i]) && states'[i + 1] == Next(states'[i], steps'[i], required) {
      assert m.enabled(states'[i], steps'[i]) && states'[i + 1] == m.next(states'[i], steps'[i]);
    }
  }

  // ----- expiry

  lemma ExpireStep(s: ApiState, l: Ledger, rest: seq<Pipeline.ExpiryRow>, required: nat)
    requires rest != [] && rest[0].id < |l.invoices|
    ensures var mid := s.(ledger := l, phase := TickPhase.Expire(rest));
      && Can(mid, ExpireOne)
      && Next(mid, ExpireOne, required)
         == s.(ledger := Records.Expire(l, rest[0].id, rest[0].invoice), phase := TickPhase.Expire(rest[1..]))
  {
  }

  /** Where the expiry loop is when the rows `done` are expired and `rest` are not. */
  function Expired(s: ApiState, done: seq<nat>, rest: seq<nat>): ApiState
    requires J.InTable(s.ledger, done) && J.InTable(s.ledger, rest)
  {
    s.(ledger := ExpireRows(s.ledger, done, s.ledger), ticking := true, phase := TickPhase.Expire(Pipeline.ReadExpiryRows(s.ledger, rest)))
  }

  lemma OneMoreExpired(s: ApiState, done: seq<nat>, id: nat, rest: seq<nat>, required: nat)
    requires J.InTable(s.ledger, done) && J.InTable(s.ledger, [id] + rest)
    requires J.InTable(s.ledger, rest) && J.InTable(s.ledger, done + [id])
    ensures Can(Expired(s, done, [id] + rest), ExpireOne)
    ensures Next(Expired(s, done, [id] + rest), ExpireOne, required) == Expired(s, done + [id], rest)
  {
    J.ReadCons(s.ledger, id, rest);
    var rows := Pipeline.ReadExpiryRows(s.ledger, [id] + rest);
    assert rows[0] == Pipeline.ExpiryRow(id, s.ledger.invoices[id]) && rows[1..] == Pipeline.ReadExpiryRows(s.ledger, rest);
    ExpireStep(s.(ticking := true), ExpireRows(s.ledger, done, s.ledger), rows, required);
    assert (done + [id])[..|done|] == done;
  }

  lemma OneMoreExpiredGets(s: ApiState, done: seq<nat>, id: nat, rest: seq<nat>, s0: ApiState, required: nat)
    requires J.InTable(s.ledger, done) && J.InTable(s.ledger, [id] + rest)
    requires J.InTable(s.ledger, rest) && J.InTable(s.ledger, done + [id])
    requires Gets(s0, Expired(s, done, [id] + rest), required)
    ensures Gets(s0, Expired(s, done + [id], rest), required)
  {
    OneMoreExpired(s, done, id, rest, required);
    StepGets(s0, Expired(s, done, [id] + rest), s.now, ExpireOne, required);
  }

  lemma {:induction false} ExpiryLoop(s: ApiState, done: seq<nat>, rest: seq<nat>, s0: ApiState, required: nat)
    requires J.InTable(s.ledger, done) && J.InTable(s.ledger, rest)
    requires Gets(s0, Expired(s, done, rest), required)
    ensures J.InTable(s.ledger, done + rest) && J.InTable(s.ledger, [])
    ensures Gets(s0, Expired(s, done + rest, []), required)
    decreases |rest|
  {
    if rest == [] {
      assert done + rest == done;
    } else {
      J.OneMoreDone(s.ledger, done, rest);
      OneMoreExpiredGets(s, done, rest[0], rest[1..], s0, required);
      ExpiryLoop(s, done + [rest[0]], rest[1..], s0, required);
    }
  }

  lemma OverdueAreRead(s: ApiState, ids: seq<nat>, required: nat)
    requires s.phase == Off && !s.ticking && Lists(ids, Overdue(s.ledger, s.now)) && J.InTable(s.ledger, ids)
    ensures Can(s, TryTick(ids)) && Next(s, TryTick(ids), required) == Expired(s, [], ids)
  {
  }

  lemma OverdueQueryGets(s: ApiState, ids: seq<nat>, at: int, required: nat)
    requires s.phase == Off && !s.ticking && s.now <= at && Lists(ids, Overdue(s.ledger, at)) && J.InTable(s.ledger, ids)
    ensures Gets(s, Expired(s.(now := at), [], ids), required)
  {
    Stays(ApiMachine(required), s);
    OverdueAreRead(s.(now := at), ids, required);
    StepGets(s, s, at, TryTick(ids), required);
  }

  ghost function AfterExpiryPart(s: ApiState, o: PassOrder, at: int): ApiState
    requires Honest(Api, o)
  {
    s.(ledger := AfterExpiry(Api, s.ledger, o, at), now := at, ticking := true, phase := TickPhase.Expire([]))
  }

  lemma ExpiryGets(s: ApiState, o: PassOrder, at: int, required: nat)
    requires s.phase == Off && !s.ticking && Honest(Api, o) && s.now <= at
    ensures Gets(s, AfterExpiryPart(s, o, at), required)
  {
    var ids := o.overdue(s.ledger, at);
    OverdueExist(Api, s.ledger, o, at);
    OverdueQueryGets(s, ids, at, required);
    assert [] + ids == ids;
    ExpiryLoop(s.(now := at), [], ids, s, required);
  }

  // ----- detection

  lemma HeightIsRead(s: ApiState, required: nat)
    requires s.phase == TickPhase.Expire([]) && s.chain.blockTimeMs > 0
    ensures Can(s, ReadHeight) && Next(s, ReadHeight, required) == s.(phase := Fetch(s.chain.CurrentBlock(s.now)))
  {
  }

  /** Where the detection phase that finds the ledger `s.ledger` is after `n` transfers. */
  ghost function Matching(s: ApiState, latest: nat, ts: seq<Transfer>, q: RowOrder, g: Course, n: nat): ApiState
    requires n <= |ts|
  {
    s.(ledger := ScanTransfers(s.ledger, ts[..n], q, g.matchAt), now := J.MatchedAt(g.matchAt, g.heightAt, n),
       phase := Match(latest, ts[n..]), offered := s.offered + Members(ts[..n]))
  }

  lemma TransfersAreFetched(s: ApiState, q: RowOrder, g: Course, required: nat)
    requires s.chain.blockTimeMs > 0 && s.lastScannedBlock >= -1 && s.now == g.heightAt
    requires s.phase == Fetch(s.chain.CurrentBlock(s.now))
    ensures Can(s, FetchTransfers)
    ensures Next(s, FetchTransfers, required)
         == Matching(s, s.chain.CurrentBlock(s.now), NewTransfers(s.chain, s.lastScannedBlock, s.now), q, g, 0)
  {
    var ts := NewTransfers(s.chain, s.lastScannedBlock, s.now);
    assert ts[..0] == [] && ts[0..] == ts && s.offered + Members(ts[..0]) == s.offered;
  }

  lemma HeightGets(s: ApiState, s0: ApiState, at: int, required: nat)
    requires s.phase == TickPhase.Expire([]) && s.chain.blockTimeMs > 0 && s.now <= at && Gets(s0, s, required)
    ensures Gets(s0, s.(now := at, phase := Fetch(s.chain.CurrentBlock(at))), required)
  {
    HeightIsRead(s.(now := at), required);
    StepGets(s0, s, at, ReadHeight, required);
  }

  lemma FetchGets(s: ApiState, s0: ApiState, q: RowOrder, g: Course, required: nat)
    requires s.phase == TickPhase.Expire([]) && s.chain.blockTimeMs > 0 && s.lastScannedBlock >= -1 && s.now <= g.heightAt
    requires Gets(s0, s, required)
    ensures Gets(s0, Matching(s, s.chain.CurrentBlock(g.heightAt), NewTransfers(s.chain, s.lastScannedBlock, g.heightAt), q, g, 0), required)
  {
    HeightGets(s, s0, g.heightAt, required);
    var mid := s.(now := g.heightAt, phase := Fetch(s.chain.CurrentBlock(g.heightAt)));
    TransfersAreFetched(mid, q, g, required);
    StepGets(s0, mid, g.heightAt, FetchTransfers, required);
  }

  lemma MatchStep(s: ApiState, t: Transfer, rest: seq<Transfer>, q: RowOrder, required: nat)
    requires HonestRows(q) && s.phase.Match? && s.phase.todo == [t] + rest
    ensures Can(s, MatchOne(q.ids(s.ledger, t)))
    ensures Next(s, MatchOne(q.ids(s.ledger, t)), required)
         == s.(ledger := q.handle(s.ledger, t, s.now), phase := Match(s.phase.latest, rest), offered := s.offered + {t})
  {
    assert Handles(q, s.ledger, t, s.now);
    assert ([t] + rest)[1..] == rest;
  }

  lemma OneMoreMatch(s: ApiState, latest: nat, ts: seq<Transfer>, q: RowOrder, g: Course, n: nat, required: nat)
    requires n < |ts| && HonestRows(q)
    ensures var mid := Matching(s, latest, ts, q, g, n).(now := g.matchAt(n));
      var step := MatchOne(q.ids(mid.ledger, ts[n]));
      Can(mid, step) && Next(mid, step, required) == Matching(s, latest, ts, q, g, n + 1)
  {
    assert ts[n..] == [ts[n]] + ts[n + 1..];
    MatchStep(Matching(s, latest, ts, q, g, n).(now := g.matchAt(n)), ts[n], ts[n + 1..], q, required);
    assert ts[..n + 1] == ts[..n] + [ts[n]];
    ScanSnoc(s.ledger, ts[..n], ts[n], q, g.matchAt);
    assert Members(ts[..n + 1]) == Members(ts[..n]) + {ts[n]};
  }

  lemma {:induction false} MatchLoop(s: ApiState, latest: nat, ts: seq<Transfer>, q: RowOrder, g: Course, n: nat, s0: ApiState, required: nat)
    requires n <= |ts| && HonestRows(q) && J.ForwardScan(g.matchAt, g.heightAt, n)
    requires Gets(s0, Matching(s, latest, ts, q, g, 0), required)
    ensures Gets(s0, Matching(s, latest, ts, q, g, n), required)
  {
    if n > 0 {
      var mid := Matching(s, latest, ts, q, g, n - 1);
      MatchLoop(s, latest, ts, q, g, n - 1, s0, required);
      OneMoreMatch(s, latest, ts, q, g, n - 1, required);
      StepGets(s0, mid, g.matchAt(n - 1), MatchOne(q.ids(mid.ledger, ts[n - 1])), required);
    }
  }

  lemma PhaseThrows(s: ApiState, s0: ApiState, required: nat)
    requires Gets(s0, s, required) && s.phase != Broken
    ensures Gets(s0, s.(ticking := false, phase := Off), required)
  {
    StepGets(s0, s, s.now, Throw, required);
  }

  lemma DetectionEnds(s: ApiState, s0: ApiState, required: nat)
    requires Gets(s0, s, required) && s.phase.Match? && s.phase.todo == []
    ensures Gets(s0, s.(lastScannedBlock := Max(s.lastScannedBlock, s.phase.latest - 1), phase := TickPhase.Scanned), required)
  {
    StepGets(s0, s, s.now, EndDetect, required);
  }

  // ----- advance

  /** When the adapter is asked about a row. */
  function AskedAt(g: Course, row: Row): int {
    if row.payment.txHash.Some? then g.askAt(row.payment.txHash.value) else g.writeAt(row.id)
  }

  /** No row is written before the adapter was asked about it. */
  predicate AskedFirst(rows: seq<Row>, g: Course, n: nat)
    requires n <= |rows|
  {
    forall j :: 0 <= j < n ==> AskedAt(g, rows[j]) <= g.writeAt(rows[j].id)
  }

  lemma AdvanceStep(s: ApiState, l: Ledger, at: int, rest: seq<Row>, asked: int, required: nat)
    requires rest != [] && InLedger(l, rest[0]) && asked <= at && s.chain.blockTimeMs > 0
    requires AdvanceRow(l, rest[0], ChainReply(s, rest[0], asked), at, required).outcome == Completed
    ensures var mid := s.(ledger := l, now := at, phase := Advance(rest));
      && Can(mid, ApiStep.AdvanceOne(asked))
      && Next(mid, ApiStep.AdvanceOne(asked), required)
         == s.(ledger := AdvanceRow(l, rest[0], ChainReply(s, rest[0], asked), at, required).ledger, now := at,
               phase := Advance(rest[1..]))
  {
  }

  /** Where the loop over the snapshot is after `n` rows. */
  function Advancing(s: ApiState, rows: seq<Row>, g: Course, n: nat, required: nat): ApiState
    requires s.chain.blockTimeMs > 0 && n <= |rows| && J.RowsIn(s.ledger, rows)
  {
    s.(ledger := HandleRows(Api, s.ledger, rows[..n], Answers(s.chain, g), required).ledger,
       now := J.TimeAfter(rows, Answers(s.chain, g), s.now, n), phase := Advance(rows[n..]))
  }

  lemma OneMoreRow(s: ApiState, rows: seq<Row>, g: Course, n: nat, required: nat)
    requires s.chain.blockTimeMs > 0 && n < |rows| && J.RowsIn(s.ledger, rows)
    requires AskedAt(g, rows[n]) <= g.writeAt(rows[n].id) && !ReplyFor(Answers(s.chain, g), rows[n].payment).RpcError?
    requires HandleRows(Api, s.ledger, rows[..n + 1], Answers(s.chain, g), required).outcome == Completed
    ensures var mid, step := Advancing(s, rows, g, n, required).(now := g.writeAt(rows[n].id)), ApiStep.AdvanceOne(AskedAt(g, rows[n]));
      Can(mid, step) && Next(mid, step, required) == Advancing(s, rows, g, n + 1, required)
  {
    var w := Answers(s.chain, g);
    assert rows[..n + 1][..n] == rows[..n] && rows[n..][0] == rows[n] && rows[n..][1..] == rows[n + 1..];
    assert ReplyFor(w, rows[n].payment) == ChainReply(s, rows[n], AskedAt(g, rows[n]));
    AdvanceStep(s, HandleRows(Api, s.ledger, rows[..n], w, required).ledger, g.writeAt(rows[n].id), rows[n..],
                AskedAt(g, rows[n]), required);
  }

  /** The first `n` rows are answered, and handled in time. */
  predicate RowsGo(s: ApiState, rows: seq<Row>, g: Course, n: nat, required: nat)
    requires s.chain.blockTimeMs > 0 && n <= |rows| && J.RowsIn(s.ledger, rows)
  {
    var w := Answers(s.chain, g);
    && AskedFirst(rows, g, n) && J.Forward(rows, w, s.now, n)
    && (forall j :: 0 <= j < n ==> !ReplyFor(w, rows[j].payment).RpcError?)
    && HandleRows(Api, s.ledger, rows[..n], w, required).outcome == Completed
  }

  lemma RowsGoBefore(s: ApiState, rows: seq<Row>, g: Course, n: nat, required: nat)
    requires s.chain.blockTimeMs > 0 && 0 < n <= |rows| && J.RowsIn(s.ledger, rows) && RowsGo(s, rows, g, n, required)
    ensures RowsGo(s, rows, g, n - 1, required)
  {
    assert rows[..n][..n - 1] == rows[..n - 1];
  }

  lemma {:induction false} AdvanceLoop(s: ApiState, rows: seq<Row>, g: Course, n: nat, s0: ApiState, required: nat)
    requires s.chain.blockTimeMs > 0 && n <= |rows| && J.RowsIn(s.ledger, rows) && RowsGo(s, rows, g, n, required)
    requires Gets(s0, Advancing(s, rows, g, 0, required), required)
    ensures Gets(s0, Advancing(s, rows, g, n, required), required)
  {
    if n > 0 {
      RowsGoBefore(s, rows, g, n, required);
      AdvanceLoop(s, rows, g, n - 1, s0, required);
      OneMoreRow(s, rows, g, n - 1, required);
      StepGets(s0, Advancing(s, rows, g, n - 1, required), g.writeAt(rows[n - 1].id),
               ApiStep.AdvanceOne(AskedAt(g, rows[n - 1])), required);
    }
  }

  lemma ActiveAreRead(s: ApiState, ids: seq<nat>, g: Course, required: nat)
    requires s.phase == TickPhase.Scanned && s.chain.blockTimeMs > 0
    requires Lists(ids, AdvancingPayments(s.ledger)) && forall k :: k in ids ==> HasRow(s.ledger, k)
    ensures Can(s, ReadActive(ids)) && Next(s, ReadActive(ids), required) == Advancing(s, ReadRows(s.ledger, ids), g, 0, required)
  {
    var rows := ReadRows(s.ledger, ids);
    assert rows[..0] == [] && rows[0..] == rows;
  }

  lemma ActiveQueryGets(s: ApiState, ids: seq<nat>, g: Course, s0: ApiState, required: nat)
    requires s.phase == TickPhase.Scanned && s.chain.blockTimeMs > 0 && Gets(s0, s, required)
    requires Lists(ids, AdvancingPayments(s.ledger)) && forall k :: k in ids ==> HasRow(s.ledger, k)
    ensures Gets(s0, Advancing(s, ReadRows(s.ledger, ids), g, 0, required), required)
  {
    ActiveAreRead(s, ids, g, required);
    StepGets(s0, s, s.now, ReadActive(ids), required);
  }

  /** A tick that got through its rows ends; one that an error stops throws. */
  lemma TickEnds(s: ApiState, ends: bool, s0: ApiState, required: nat)
    requires Gets(s0, s, required) && s.phase.Advance? && (ends ==> s.phase == Advance([]))
    ensures Gets(s0, s.(ticking := false, phase := Off), required)
  {
    if ends {
      StepGets(s0, s, s.now, EndTick, required);
    } else {
      PhaseThrows(s, s0, required);
    }
  }

  lemma AdvanceGets(s: ApiState, ids: seq<nat>, g: Course, n: nat, s0: ApiState, required: nat)
    requires s.phase == TickPhase.Scanned && s.chain.blockTimeMs > 0 && Gets(s0, s, required)
    requires Lists(ids, AdvancingPayments(s.ledger)) && forall k :: k in ids ==> HasRow(s.ledger, k)
    requires n <= |ids| && RowsGo(s, ReadRows(s.ledger, ids), g, n, required)
    ensures Gets(s0, Advancing(s, ReadRows(s.ledger, ids), g, n, required).(ticking := false, phase := Off), required)
  {
    var rows := ReadRows(s.ledger, ids);
    ActiveQueryGets(s, ids, g, s0, required);
    AdvanceLoop(s, rows, g, n, s0, required);
    TickEnds(Advancing(s, rows, g, n, required), n == |rows|, s0, required);
  }

  // ----- the whole tick

  /** The rows that the advance phase reads, and how many of them it handles. */
  ghost function Snapshot(l: Ledger, c: Chain, last: int, o: PassOrder, q: RowOrder, g: Course): seq<Row>
    requires Honest(Api, o) && HonestRows(q) && c.blockTimeMs > 0 && last >= -1 && ForeignKeys(l)
  {
    var l2 := AfterDetection(l, c, last, o, q, g);
    OverdueExist(Api, l, o, g.queryAt);
    ExpiryKeepsKeys(l, o.overdue(l, g.queryAt));
    ScanKeepsKeys(AfterExpiry(Api, l, o, g.queryAt), BeforeThrow(NewTransfers(c, last, g.heightAt), g), q, g.matchAt);
    ActiveExist(Api, l2, o);
    ReadRows(l2, o.active(l2))
  }

  ghost function Reached(l: Ledger, c: Chain, last: int, o: PassOrder, q: RowOrder, g: Course): (n: nat)
    requires Honest(Api, o) && HonestRows(q) && c.blockTimeMs > 0 && last >= -1 && ForeignKeys(l)
    ensures n <= |Snapshot(l, c, last, o, q, g)|
  {
    var l2 := AfterDetection(l, c, last, o, q, g);
    Handled(l2, o.active(l2), Answers(c, g))
  }

  /** The clock of a tick does not go back: from its start to the two queries, from one
      transfer to the next, and on to each row that it gets to. */
  ghost predicate ClockRuns(l: Ledger, c: Chain, last: int, o: PassOrder, q: RowOrder, g: Course, started: int)
    requires Honest(Api, o) && HonestRows(q) && c.blockTimeMs > 0 && last >= -1 && ForeignKeys(l)
  {
    var ts := NewTransfers(c, last, g.heightAt);
    var m := |BeforeThrow(ts, g)|;
    var rows, n := Snapshot(l, c, last, o, q, g), Reached(l, c, last, o, q, g);
    && started <= g.queryAt <= g.heightAt && J.ForwardScan(g.matchAt, g.heightAt, m)
    && (!ScanThrows(ts, g) ==>
          J.Forward(rows, Answers(c, g), J.MatchedAt(g.matchAt, g.heightAt, m), n) && AskedFirst(rows, g, n))
  }

  /** The ledger of the tick, its watermark and what it offered for matching; the chain
      and the rest are as before. */
  ghost predicate IsAfterTick(s: ApiState, s': ApiState, o: PassOrder, q: RowOrder, g: Course, required: nat)
    requires Honest(Api, o) && HonestRows(q) && s.chain.blockTimeMs > 0 && s.lastScannedBlock >= -1 && ForeignKeys(s.ledger)
  {
    var ts := NewTransfers(s.chain, s.lastScannedBlock, g.heightAt);
    && s'.ledger == TickPass(s.ledger, s.chain, s.lastScannedBlock, o, q, g, required).ledger
    && s'.lastScannedBlock == (if ScanThrows(ts, g) then s.lastScannedBlock
                               else Max(s.lastScannedBlock, s.chain.CurrentBlock(g.heightAt) - 1))
    && s'.offered == s.offered + Members(BeforeThrow(ts, g))
    && s' == s.(ledger := s'.ledger, now := s'.now, lastScannedBlock := s'.lastScannedBlock, offered := s'.offered)
  }

  /** The tick has matched what it matches before detection ends or throws. */
  lemma MatchingGets(s: ApiState, o: PassOrder, q: RowOrder, g: Course, required: nat) returns (r: ApiState)
    requires s.phase == Off && !s.ticking && s.chain.blockTimeMs > 0 && s.lastScannedBlock >= -1
    requires Honest(Api, o) && HonestRows(q) && s.now <= g.queryAt <= g.heightAt
    requires J.ForwardScan(g.matchAt, g.heightAt, |BeforeThrow(NewTransfers(s.chain, s.lastScannedBlock, g.heightAt), g)|)
    ensures Gets(s, r, required)
    ensures var ts := NewTransfers(s.chain, s.lastScannedBlock, g.heightAt);
      r == Matching(AfterExpiryPart(s, o, g.queryAt), s.chain.CurrentBlock(g.heightAt), ts, q, g, |BeforeThrow(ts, g)|)
  {
    var ts := NewTransfers(s.chain, s.lastScannedBlock, g.heightAt);
    var s1, latest, n := AfterExpiryPart(s, o, g.queryAt), s.chain.CurrentBlock(g.heightAt), |BeforeThrow(ts, g)|;
    ExpiryGets(s, o, g.queryAt, required);
    FetchGets(s1, s, q, g, required);
    MatchLoop(s1, latest, ts, q, g, n, s, required);
    r := Matching(s1, latest, ts, q, g, n);
  }

  lemma MatchingMeans(s: ApiState, latest: nat, ts: seq<Transfer>, q: RowOrder, g: Course)
    ensures var n := |BeforeThrow(ts, g)|;
      && n <= |ts| && ts[..n] == BeforeThrow(ts, g) && (!ScanThrows(ts, g) ==> ts[n..] == [])
  {
  }

  lemma ThrownTickGets(s: ApiState, o: PassOrder, q: RowOrder, g: Course, required: nat) returns (r: ApiState)
    requires s.phase == Off && !s.ticking && s.chain.blockTimeMs > 0 && s.lastScannedBlock >= -1
    requires Honest(Api, o) && HonestRows(q) && ForeignKeys(s.ledger)
    requires ClockRuns(s.ledger, s.chain, s.lastScannedBlock, o, q, g, s.now)
    requires ScanThrows(NewTransfers(s.chain, s.lastScannedBlock, g.heightAt), g)
    ensures Gets(s, r, required) && IsAfterTick(s, r, o, q, g, required)
  {
    var ts := NewTransfers(s.chain, s.lastScannedBlock, g.heightAt);
    r := MatchingGets(s, o, q, g, required);
    MatchingMeans(s, s.chain.CurrentBlock(g.heightAt), ts, q, g);
    PhaseThrows(r, s, required);
    r := r.(ticking := false, phase := Off);
  }

  /** The state of a tick whose detection phase is over. */
  ghost function AfterDetectionPart(s: ApiState, o: PassOrder, q: RowOrder, g: Course): ApiState
    requires s.chain.blockTimeMs > 0 && s.lastScannedBlock >= -1 && Honest(Api, o) && HonestRows(q)
  {
    var ts := NewTransfers(s.chain, s.lastScannedBlock, g.heightAt);
    s.(ledger := AfterDetection(s.ledger, s.chain, s.lastScannedBlock, o, q, g), now := J.MatchedAt(g.matchAt, g.heightAt, |ts|),
       ticking := true, offered := s.offered + Members(ts),
       lastScannedBlock := Max(s.lastScannedBlock, s.chain.CurrentBlock(g.heightAt) - 1), phase := TickPhase.Scanned)
  }

  lemma DetectionGets(s: ApiState, o: PassOrder, q: RowOrder, g: Course, required: nat)
    requires s.phase == Off && !s.ticking && s.chain.blockTimeMs > 0 && s.lastScannedBlock >= -1
    requires Honest(Api, o) && HonestRows(q) && s.now <= g.queryAt <= g.heightAt
    requires J.ForwardScan(g.matchAt, g.heightAt, |BeforeThrow(NewTransfers(s.chain, s.lastScannedBlock, g.heightAt), g)|)
    requires !ScanThrows(NewTransfers(s.chain, s.lastScannedBlock, g.heightAt), g)
    ensures Gets(s, AfterDetectionPart(s, o, q, g), required)
  {
    var ts := NewTransfers(s.chain, s.lastScannedBlock, g.heightAt);
    var r := MatchingGets(s, o, q, g, required);
    MatchingMeans(s, s.chain.CurrentBlock(g.heightAt), ts, q, g);
    DetectionEnds(r, s, required);
  }

  lemma FinishedTickGets(s: ApiState, o: PassOrder, q: RowOrder, g: Course, required: nat) returns (r: ApiState)
    requires Inv(s.ledger, required) && s.phase == Off && !s.ticking && s.chain.blockTimeMs > 0 && s.lastScannedBlock >= -1
    requires Honest(Api, o) && HonestRows(q) && ForeignKeys(s.ledger)
    requires ClockRuns(s.ledger, s.chain, s.lastScannedBlock, o, q, g, s.now)
    requires !ScanThrows(NewTransfers(s.chain, s.lastScannedBlock, g.heightAt), g)
    ensures Gets(s, r, required) && IsAfterTick(s, r, o, q, g, required)
  {
    var l2 := AfterDetection(s.ledger, s.chain, s.lastScannedBlock, o, q, g);
    var n := Reached(s.ledger, s.chain, s.lastScannedBlock, o, q, g);
    DetectionGets(s, o, q, g, required);
    DetectionIsSafe(s.ledger, s.chain, s.lastScannedBlock, o, q, g, required);
    HandledRowsComplete(Api, l2, o.active(l2), Answers(s.chain, g), required);
    AdvanceGets(AfterDetectionPart(s, o, q, g), o.active(l2), g, n, s, required);
    r := Advancing(AfterDetectionPart(s, o, q, g), ReadRows(l2, o.active(l2)), g, n, required).(ticking := false, phase := Off);
  }

  /** `tick`, from any state of a run in which none is running, continues the run with the
      ledger and the watermark of the tick, cut short or not. */
  lemma TickIsARun(states: seq<ApiState>, steps: seq<ApiStep>, o: PassOrder, q: RowOrder, g: Course, required: nat)
    returns (states': seq<ApiState>, steps': seq<ApiStep>)
    requires IsApiRun(states, steps, required) && Honest(Api, o) && HonestRows(q)
    requires var s := states[|steps|];
      && !s.ticking && s.chain.blockTimeMs > 0 && s.lastScannedBlock >= -1 && ForeignKeys(s.ledger)
      && ClockRuns(s.ledger, s.chain, s.lastScannedBlock, o, q, g, s.now)
    ensures IsApiRun(states', steps', required) && states <= states' && steps <= steps'
    ensures IsAfterTick(states[|steps|], states'[|steps'|], o, q, g, required)
  {
    var s := states[|steps|];
    ApiRunsAreSound(states, steps, required, |steps|);
    var r;
    if ScanThrows(NewTransfers(s.chain, s.lastScannedBlock, g.heightAt), g) {
      r := ThrownTickGets(s, o, q, g, required);
    } else {
      r := FinishedTickGets(s, o, q, g, required);
    }
    states', steps' := RunGoesOn(states, steps, r, required);
  }
}
