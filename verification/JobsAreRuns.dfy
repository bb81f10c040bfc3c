/** The worker's jobs, run without anything interleaving, are runs of the machine: the
    clock may move between any two rows, and an RPC error or a crash may stop a job at
    any row. So what holds in every reachable state of the machine holds wherever the
    loops of the worker stop. */
module JobsAreRuns {
  import opened Common
  import opened Records
  import opened Expiry
  import opened BlockchainScan
  import opened PaymentConfirm
  import opened ConfirmationPass
  import opened PaymentJobs
  import opened TimedRuns
  import opened Pipeline
  import opened PipelineRuns

  ghost function WorkerMachine(c: Config): Machine<State, Step> {
    Machine((s, t) => Enabled(c, s, t), (s, t) => if Enabled(c, s, t) then Do(c, s, t) else s,
            (s: State) => s.now, (s: State, at) => s.(now := at),
            (s: State, at) => Wait(if at < s.now then 0 else at - s.now))
  }

  ghost predicate Gets(c: Config, s: State, r: State) {
    Reaches(WorkerMachine(c), s, r)
  }

  lemma StepGets(c: Config, s: State, mid: State, at: int, step: Step)
    requires Gets(c, s, mid) && mid.now <= at && Enabled(c, mid.(now := at), step)
    ensures Gets(c, s, Do(c, mid.(now := at), step))
  {
    TakesAt(WorkerMachine(c), s, mid, at, step);
  }

  /** What an idle moment of a run can get to continues the run. */
  lemma RunGoesOn(c: Config, states: seq<State>, steps: seq<Step>, r: State) returns (states': seq<State>, steps': seq<Step>)
    requires IsRun(c, states, steps) && Gets(c, states[|steps|], r)
    ensures IsRun(c, states', steps') && states <= states' && steps <= steps' && states'[|steps'|] == r
  {
    var m := WorkerMachine(c);
    forall i {:trigger steps[i]} | 0 <= i < |steps| ensures m.enabled(states[i], steps[i]) && states[i + 1] == m.next(states[i], steps[i]) {
    }
    states', steps' := GoesOn(m, states, steps, r);
    assert states'[0] == states[0];
    forall i | 0 <= i < |steps'| ensures Enabled(c, states'[i], steps'[i]) && states'[i + 1] == Do(c, states'[i], steps'[i]) {
      assert m.enabled(states'[i], steps'[i]) && states'[i + 1] == m.next(states'[i], steps'[i]);
    }
  }

  // ----- expiry

  lemma ExpireStep(c: Config, s: State, l: Ledger, rest: seq<ExpiryRow>)
    requires rest != [] && rest[0].id < |l.invoices|
    ensures var mid := s.(ledger := l, phase := Expiring(rest));
      && Enabled(c, mid, ExpireNext)
      && Do(c, mid, ExpireNext) == s.(ledger := Expire(l, rest[0].id, rest[0].invoice), phase := Expiring(rest[1..]))
  {
  }

  ghost predicate InTable(l: Ledger, ids: seq<nat>) {
    forall i :: i in ids ==> i < |l.invoices|
  }

  /** Moving the first of the remaining rows to those that are done. */
  lemma OneMoreDone(l: Ledger, done: seq<nat>, rest: seq<nat>)
    requires InTable(l, done) && InTable(l, rest) && rest != []
    ensures rest == [rest[0]] + rest[1..] && done + rest == (done + [rest[0]]) + rest[1..]
    ensures InTable(l, done + [rest[0]]) && InTable(l, rest[1..])
  {
    assert rest[0] in rest && forall i :: i in rest[1..] ==> i in rest;
  }

  /** Where the expiry loop is when the rows `done` are expired and `rest` are not. */
  function Expired(s: State, done: seq<nat>, rest: seq<nat>): State
    requires InTable(s.ledger, done) && InTable(s.ledger, rest)
  {
    s.(ledger := ExpireRows(s.ledger, done, s.ledger), phase := Expiring(ReadExpiryRows(s.ledger, rest)))
  }

  lemma ReadCons(l: Ledger, id: nat, rest: seq<nat>)
    requires InTable(l, [id] + rest) && InTable(l, rest)
    ensures id < |l.invoices|
    ensures ReadExpiryRows(l, [id] + rest) == [ExpiryRow(id, l.invoices[id])] + ReadExpiryRows(l, rest)
  {
    assert ([id] + rest)[0] in [id] + rest;
  }

  lemma OneMoreExpired(c: Config, s: State, done: seq<nat>, id: nat, rest: seq<nat>)
    requires InTable(s.ledger, done) && InTable(s.ledger, [id] + rest) && InTable(s.ledger, rest) && InTable(s.ledger, done + [id])
    ensures Enabled(c, Expired(s, done, [id] + rest), ExpireNext)
    ensures Do(c, Expired(s, done, [id] + rest), ExpireNext) == Expired(s, done + [id], rest)
  {
    ReadCons(s.ledger, id, rest);
    var rows := ReadExpiryRows(s.ledger, [id] + rest);
    assert rows[0] == ExpiryRow(id, s.ledger.invoices[id]) && rows[1..] == ReadExpiryRows(s.ledger, rest);
    ExpireStep(c, s, ExpireRows(s.ledger, done, s.ledger), rows);
    assert (done + [id])[..|done|] == done;
  }

  lemma OneMoreGets(c: Config, s: State, done: seq<nat>, id: nat, rest: seq<nat>, s0: State)
    requires InTable(s.ledger, done) && InTable(s.ledger, [id] + rest) && InTable(s.ledger, rest) && InTable(s.ledger, done + [id])
    requires Gets(c, s0, Expired(s, done, [id] + rest))
    ensures Gets(c, s0, Expired(s, done + [id], rest))
  {
    OneMoreExpired(c, s, done, id, rest);
    StepGets(c, s0, Expired(s, done, [id] + rest), s.now, ExpireNext);
  }

  lemma {:induction false} ExpiryLoop(c: Config, s: State, done: seq<nat>, rest: seq<nat>, s0: State)
    requires InTable(s.ledger, done) && InTable(s.ledger, rest)
    requires Gets(c, s0, Expired(s, done, rest))
    ensures InTable(s.ledger, done + rest) && InTable(s.ledger, [])
    ensures Gets(c, s0, Expired(s, done + rest, []))
    decreases |rest|
  {
    if rest == [] {
      assert done + rest == done;
    } else {
      OneMoreDone(s.ledger, done, rest);
      OneMoreGets(c, s, done, rest[0], rest[1..], s0);
      ExpiryLoop(c, s, done + [rest[0]], rest[1..], s0);
    }
  }

  lemma OverdueAreRead(c: Config, s: State, ids: seq<nat>)
    requires s.phase.Idle? && Lists(ids, Overdue(s.ledger, s.now)) && InTable(s.ledger, ids)
    ensures Enabled(c, s, BeginConfirm(ids)) && Do(c, s, BeginConfirm(ids)) == Expired(s, [], ids)
  {
  }

  lemma OverdueQueryGets(c: Config, s: State, ids: seq<nat>, at: int)
    requires s.phase.Idle? && s.now <= at && Lists(ids, Overdue(s.ledger, at)) && InTable(s.ledger, ids)
    ensures Gets(c, s, Expired(s.(now := at), [], ids))
  {
    Stays(WorkerMachine(c), s);
    OverdueAreRead(c, s.(now := at), ids);
    StepGets(c, s, s, at, BeginConfirm(ids));
  }

  lemma ExpiryPartRuns(c: Config, s: State, o: PassOrder, queryTime: int)
    requires s.phase.Idle? && Honest(Worker, o) && s.now <= queryTime
    ensures Gets(c, s, s.(ledger := AfterExpiry(Worker, s.ledger, o, queryTime), now := queryTime, phase := Expiring([])))
  {
    var ids := o.overdue(s.ledger, queryTime);
    OverdueExist(Worker, s.ledger, o, queryTime);
    OverdueQueryGets(c, s, ids, queryTime);
    assert [] + ids == ids;
    ExpiryLoop(c, s.(now := queryTime), [], ids, s);
  }

  // ----- the rows of a confirmation pass

  /** The time at which the first `n` rows are done. */
  function TimeAfter(rows: seq<Row>, w: World, start: int, n: nat): int
    requires n <= |rows|
  {
    if n == 0 then start else w.clock(rows[n - 1].id)
  }

  /** The clock does not go back while the first `n` rows are handled. */
  predicate Forward(rows: seq<Row>, w: World, start: int, n: nat)
    requires n <= |rows|
  {
    forall j :: 0 <= j < n ==> TimeAfter(rows, w, start, j) <= w.clock(rows[j].id)
  }

  lemma ConfirmStep(c: Config, s: State, l: Ledger, at: int, rest: seq<Row>, reply: Reply)
    requires rest != [] && InLedger(l, rest[0]) && !reply.RpcError?
    requires ConfirmRow(l, rest[0], reply, at, c.required).outcome == Completed
    ensures var mid := s.(ledger := l, now := at, phase := Confirming(rest));
      && Enabled(c, mid, ConfirmNext(reply))
      && Do(c, mid, ConfirmNext(reply))
         == s.(ledger := ConfirmRow(l, rest[0], reply, at, c.required).ledger, now := at, phase := Confirming(rest[1..]))
  {
  }

  predicate RowsIn(l: Ledger, rows: seq<Row>) {
    forall j :: 0 <= j < |rows| ==> InLedger(l, rows[j])
  }

  /** Where the loop over the snapshot is after `n` rows. */
  function Confirmed(c: Config, s: State, rows: seq<Row>, w: World, n: nat): State
    requires n <= |rows| && RowsIn(s.ledger, rows)
  {
    s.(ledger := HandleRows(Worker, s.ledger, rows[..n], w, c.required).ledger, now := TimeAfter(rows, w, s.now, n),
       phase := Confirming(rows[n..]))
  }

  lemma OneMoreRow(c: Config, s: State, rows: seq<Row>, w: World, n: nat)
    requires n < |rows| && RowsIn(s.ledger, rows) && !ReplyFor(w, rows[n].payment).RpcError?
    requires HandleRows(Worker, s.ledger, rows[..n + 1], w, c.required).outcome == Completed
    ensures var mid, step := Confirmed(c, s, rows, w, n).(now := w.clock(rows[n].id)), ConfirmNext(ReplyFor(w, rows[n].payment));
      Enabled(c, mid, step) && Do(c, mid, step) == Confirmed(c, s, rows, w, n + 1)
  {
    assert rows[..n + 1][..n] == rows[..n] && rows[n..][0] == rows[n] && rows[n..][1..] == rows[n + 1..];
    ConfirmStep(c, s, HandleRows(Worker, s.ledger, rows[..n], w, c.required).ledger, w.clock(rows[n].id), rows[n..],
                ReplyFor(w, rows[n].payment));
  }

  lemma CompletedBefore(s: State, rows: seq<Row>, w: World, n: nat, required: nat)
    requires 0 < n <= |rows| && RowsIn(s.ledger, rows)
    requires HandleRows(Worker, s.ledger, rows[..n], w, required).outcome == Completed
    ensures HandleRows(Worker, s.ledger, rows[..n - 1], w, required).outcome == Completed
  {
    assert rows[..n][..n - 1] == rows[..n - 1];
  }

  lemma {:induction false} ConfirmLoop(c: Config, s: State, rows: seq<Row>, w: World, n: nat)
    requires n <= |rows| && RowsIn(s.ledger, rows) && Forward(rows, w, s.now, n)
    requires forall j :: 0 <= j < n ==> !ReplyFor(w, rows[j].payment).RpcError?
    requires HandleRows(Worker, s.ledger, rows[..n], w, c.required).outcome == Completed
    ensures Gets(c, Confirmed(c, s, rows, w, 0), Confirmed(c, s, rows, w, n))
  {
    if n == 0 {
      Stays(WorkerMachine(c), Confirmed(c, s, rows, w, 0));
    } else {
      CompletedBefore(s, rows, w, n, c.required);
      ConfirmLoop(c, s, rows, w, n - 1);
      OneMoreRow(c, s, rows, w, n - 1);
      StepGets(c, Confirmed(c, s, rows, w, 0), Confirmed(c, s, rows, w, n - 1), w.clock(rows[n - 1].id),
               ConfirmNext(ReplyFor(w, rows[n - 1].payment)));
    }
  }

  lemma RowsAreRead(c: Config, s: State, ids: seq<nat>, w: World)
    requires s.phase == Expiring([]) && Lists(ids, ActivePayments(s.ledger)) && forall k :: k in ids ==> HasRow(s.ledger, k)
    ensures Enabled(c, s, BeginRows(ids)) && Do(c, s, BeginRows(ids)) == Confirmed(c, s, ReadRows(s.ledger, ids), w, 0)
  {
    var rows := ReadRows(s.ledger, ids);
    assert rows[..0] == [] && rows[0..] == rows;
  }

  /** A pass that got through its rows ends; one that an RPC error stops is aborted. */
  lemma PassEnds(c: Config, s: State, r: State, ends: bool)
    requires Gets(c, s, r) && r.phase.Confirming? && (ends ==> r.phase == Confirming([]))
    ensures Gets(c, s, r.(phase := Idle))
  {
    if ends {
      StepGets(c, s, r, r.now, EndConfirm);
    } else {
      StepGets(c, s, r, r.now, Abort);
    }
  }

  lemma RowsQueryGets(c: Config, s: State, ids: seq<nat>, w: World)
    requires s.phase == Expiring([]) && Lists(ids, ActivePayments(s.ledger)) && forall k :: k in ids ==> HasRow(s.ledger, k)
    ensures Gets(c, s, Confirmed(c, s, ReadRows(s.ledger, ids), w, 0))
  {
    Stays(WorkerMachine(c), s);
    RowsAreRead(c, s, ids, w);
    StepGets(c, s, s, s.now, BeginRows(ids));
  }

  lemma RowsLoopGets(c: Config, s: State, s1: State, rows: seq<Row>, w: World, n: nat)
    requires RowsIn(s.ledger, rows) && n <= |rows| && Gets(c, s1, Confirmed(c, s, rows, w, 0))
    requires Forward(rows, w, s.now, n) && forall j :: 0 <= j < n ==> !ReplyFor(w, rows[j].payment).RpcError?
    requires HandleRows(Worker, s.ledger, rows[..n], w, c.required).outcome == Completed
    ensures Gets(c, s1, Confirmed(c, s, rows, w, n).(phase := Idle))
  {
    ConfirmLoop(c, s, rows, w, n);
    Leads(WorkerMachine(c), s1, Confirmed(c, s, rows, w, 0), Confirmed(c, s, rows, w, n));
    PassEnds(c, s1, Confirmed(c, s, rows, w, n), n == |rows|);
  }

  lemma RowsPartRuns(c: Config, s: State, ids: seq<nat>, w: World, n: nat)
    requires s.phase == Expiring([]) && Lists(ids, ActivePayments(s.ledger)) && forall k :: k in ids ==> HasRow(s.ledger, k)
    requires n <= |ids| && Forward(ReadRows(s.ledger, ids), w, s.now, n)
    requires forall j :: 0 <= j < n ==> !ReplyFor(w, ReadRows(s.ledger, ids)[j].payment).RpcError?
    requires HandleRows(Worker, s.ledger, ReadRows(s.ledger, ids)[..n], w, c.required).outcome == Completed
    ensures Gets(c, s, Confirmed(c, s, ReadRows(s.ledger, ids), w, n).(phase := Idle))
  {
    RowsQueryGets(c, s, ids, w);
    RowsLoopGets(c, s, s, ReadRows(s.ledger, ids), w, n);
  }

  // ----- the whole pass

  /** The snapshot of a pass, and how many of its rows are handled before an RPC error. */
  ghost function Snapshot(l: Ledger, o: PassOrder, queryTime: int): seq<Row>
    requires Honest(Worker, o) && ForeignKeys(l)
  {
    var read := AfterExpiry(Worker, l, o, queryTime);
    OverdueExist(Worker, l, o, queryTime);
    ExpiryKeepsKeys(l, o.overdue(l, queryTime));
    ActiveExist(Worker, read, o);
    ReadRows(read, o.active(read))
  }

  ghost function Reached(l: Ledger, o: PassOrder, w: World, queryTime: int): (n: nat)
    requires Honest(Worker, o) && ForeignKeys(l)
    ensures n <= |Snapshot(l, o, queryTime)|
  {
    var read := AfterExpiry(Worker, l, o, queryTime);
    Handled(read, o.active(read), w)
  }

  lemma ReadLedgerIsGood(l: Ledger, o: PassOrder, queryTime: int, required: nat)
    requires Inv(l, required) && Honest(Worker, o)
    ensures Inv(AfterExpiry(Worker, l, o, queryTime), required)
  {
    OverdueExist(Worker, l, o, queryTime);
    ExpiryIsPointwise(l, o.overdue(l, queryTime), required);
  }

  /** The state after a pass that started in `s`. */
  ghost function PassEnd(c: Config, s: State, o: PassOrder, w: World, queryTime: int): State
    requires Honest(Worker, o) && ForeignKeys(s.ledger)
  {
    s.(ledger := FullPass(Worker, s.ledger, o, w, queryTime, c.required).ledger,
       now := TimeAfter(Snapshot(s.ledger, o, queryTime), w, queryTime, Reached(s.ledger, o, w, queryTime)))
  }

  lemma PassGets(c: Config, s: State, o: PassOrder, w: World, queryTime: int)
    requires Inv(s.ledger, c.required) && ForeignKeys(s.ledger) && s.phase.Idle? && Honest(Worker, o) && s.now <= queryTime
    requires Forward(Snapshot(s.ledger, o, queryTime), w, queryTime, Reached(s.ledger, o, w, queryTime))
    ensures Gets(c, s, PassEnd(c, s, o, w, queryTime))
  {
    var read := AfterExpiry(Worker, s.ledger, o, queryTime);
    var ids, n := o.active(read), Reached(s.ledger, o, w, queryTime);
    var s1 := s.(ledger := read, now := queryTime, phase := Expiring([]));
    ExpiryPartRuns(c, s, o, queryTime);
    ReadLedgerIsGood(s.ledger, o, queryTime, c.required);
    HandledRowsComplete(Worker, read, ids, w, c.required);
    RowsPartRuns(c, s1, ids, w, n);
    Leads(WorkerMachine(c), s, s1, Confirmed(c, s1, ReadRows(read, ids), w, n).(phase := Idle));
  }

  /** `runPaymentConfirm` continues any run that has come to an idle state, to an idle
      state with the ledger of the pass: whatever the adapter answers, whether the pass
      completes or an RPC error stops it, and however the clock runs on from its query to
      each row it gets to. */
  lemma PassIsARun(c: Config, states: seq<State>, steps: seq<Step>, o: PassOrder, w: World, queryTime: int)
    returns (states': seq<State>, steps': seq<Step>)
    requires IsRun(c, states, steps) && states[|steps|].phase.Idle? && Honest(Worker, o)
    requires states[|steps|].now <= queryTime && ForeignKeys(states[|steps|].ledger)
    requires var l := states[|steps|].ledger; Forward(Snapshot(l, o, queryTime), w, queryTime, Reached(l, o, w, queryTime))
    ensures IsRun(c, states', steps') && states <= states' && steps <= steps'
    ensures states'[|steps'|] == PassEnd(c, states[|steps|], o, w, queryTime)
  {
    var s := states[|steps|];
    SafeAt(c, states, steps, |steps|);
    PassGets(c, s, o, w, queryTime);
    states', steps' := RunGoesOn(c, states, steps, PassEnd(c, s, o, w, queryTime));
  }

  // ----- the scan

  /** The time at which the first `n` transfers are matched. */
  function MatchedAt(clock: nat -> int, start: int, n: nat): int {
    if n == 0 then start else clock(n - 1)
  }

  /** The clock does not go back while the first `n` transfers are matched. */
  predicate ForwardScan(clock: nat -> int, start: int, n: nat) {
    forall j :: 0 <= j < n ==> MatchedAt(clock, start, j) <= clock(j)
  }

  /** Where the scan of `range` that started in `s` is after `n` transfers. */
  ghost function Scanned(s: State, range: Range, ts: seq<Transfer>, q: RowOrder, clock: nat -> int, n: nat): State
    requires n <= |ts|
  {
    s.(ledger := ScanTransfers(s.ledger, ts[..n], q, clock), now := MatchedAt(clock, s.now, n),
       phase := Scanning(range, ts[n..]), offered := s.offered + Members(ts[..n]))
  }

  lemma MatchStep(c: Config, s: State, t: Transfer, rest: seq<Transfer>, q: RowOrder)
    requires HonestRows(q) && s.phase.Scanning? && s.phase.todo == [t] + rest
    ensures Enabled(c, s, MatchNext(q.ids(s.ledger, t)))
    ensures Do(c, s, MatchNext(q.ids(s.ledger, t)))
         == s.(ledger := q.handle(s.ledger, t, s.now), phase := Scanning(s.phase.range, rest), offered := s.offered + {t})
  {
    assert Handles(q, s.ledger, t, s.now);
    assert ([t] + rest)[1..] == rest;
  }

  lemma OneMoreMatch(c: Config, s: State, range: Range, ts: seq<Transfer>, q: RowOrder, clock: nat -> int, n: nat)
    requires n < |ts| && HonestRows(q)
    ensures var mid := Scanned(s, range, ts, q, clock, n).(now := clock(n));
      var step := MatchNext(q.ids(mid.ledger, ts[n]));
      Enabled(c, mid, step) && Do(c, mid, step) == Scanned(s, range, ts, q, clock, n + 1)
  {
    var mid := Scanned(s, range, ts, q, clock, n).(now := clock(n));
    assert ts[n..] == [ts[n]] + ts[n + 1..];
    MatchStep(c, mid, ts[n], ts[n + 1..], q);
    assert ts[..n + 1] == ts[..n] + [ts[n]];
    ScanSnoc(s.ledger, ts[..n], ts[n], q, clock);
    assert Members(ts[..n + 1]) == Members(ts[..n]) + {ts[n]};
  }

  lemma {:induction false} MatchLoop(c: Config, s: State, range: Range, ts: seq<Transfer>, q: RowOrder, clock: nat -> int, n: nat)
    requires n <= |ts| && HonestRows(q) && ForwardScan(clock, s.now, n)
    ensures Gets(c, Scanned(s, range, ts, q, clock, 0), Scanned(s, range, ts, q, clock, n))
  {
    if n == 0 {
      Stays(WorkerMachine(c), Scanned(s, range, ts, q, clock, 0));
    } else {
      var mid := Scanned(s, range, ts, q, clock, n - 1);
      MatchLoop(c, s, range, ts, q, clock, n - 1);
      OneMoreMatch(c, s, range, ts, q, clock, n - 1);
      StepGets(c, Scanned(s, range, ts, q, clock, 0), mid, clock(n - 1), MatchNext(q.ids(mid.ledger, ts[n - 1])));
    }
  }

  /** The number of transfers that a scan matches before it ends or dies. */
  function Matched(ts: seq<Transfer>, diesAt: nat): nat {
    if |ts| < diesAt then |ts| else diesAt
  }

  /** The adapter reports no block that is not there, and fetches exactly the transfers of
      the range; either call may fail. */
  ghost predicate HonestRpc(c: Config, s: State, rpc: Rpc) {
    rpc.latest.Some? ==>
      && rpc.latest.value <= s.height
      && var fetched := rpc.fetch(s.cursor + 1, rpc.latest.value);
         fetched.Some? ==> forall t :: t in fetched.value <==> OnChain(c, Range(s.cursor + 1, rpc.latest.value), t)
  }

  predicate Fetches(s: State, rpc: Rpc) {
    rpc.latest.Some? && s.cursor < rpc.latest.value && rpc.fetch(s.cursor + 1, rpc.latest.value).Some?
  }

  function Fetched(s: State, rpc: Rpc): seq<Transfer> {
    if Fetches(s, rpc) then rpc.fetch(s.cursor + 1, rpc.latest.value).value else []
  }

  lemma ScanBegins(c: Config, s: State, latest: nat, ts: seq<Transfer>, q: RowOrder, clock: nat -> int)
    requires s.phase.Idle? && s.cursor < latest <= s.height && forall t :: t in ts <==> OnChain(c, Range(s.cursor + 1, latest), t)
    ensures Enabled(c, s, BeginScan(latest, ts))
    ensures Do(c, s, BeginScan(latest, ts)) == Scanned(s, Range(s.cursor + 1, latest), ts, q, clock, 0)
  {
    assert ts[..0] == [] && ts[0..] == ts;
    assert s.offered + Members(ts[..0]) == s.offered;
  }

  lemma ScanEnds(c: Config, s: State, r: State)
    requires Gets(c, s, r) && r.phase.Scanning?
    ensures Gets(c, s, r.(phase := Idle))
    ensures r.phase.todo == [] ==> Gets(c, s, r.(cursor := r.phase.range.to, phase := Idle, scans := r.scans + [r.phase.range]))
  {
    StepGets(c, s, r, r.now, Abort);
    if r.phase.todo == [] {
      StepGets(c, s, r, r.now, EndScan);
    }
  }

  /** The state that a scan of the fetched transfers leaves behind, completed or not. */
  ghost function ScanEnd(s: State, rpc: Rpc, q: RowOrder, clock: nat -> int, diesAt: nat): State {
    if !Fetches(s, rpc) then s else
      var ts, range := Fetched(s, rpc), Range(s.cursor + 1, rpc.latest.value);
      var r := Scanned(s, range, ts, q, clock, Matched(ts, diesAt)).(phase := Idle);
      if |ts| < diesAt then r.(cursor := range.to, scans := s.scans + [range]) else r
  }

  lemma ScanGets(c: Config, s: State, rpc: Rpc, q: RowOrder, clock: nat -> int, diesAt: nat)
    requires s.phase.Idle? && HonestRows(q) && HonestRpc(c, s, rpc) && Fetches(s, rpc)
    requires ForwardScan(clock, s.now, Matched(Fetched(s, rpc), diesAt))
    ensures Gets(c, s, ScanEnd(s, rpc, q, clock, diesAt))
  {
    var ts, range := Fetched(s, rpc), Range(s.cursor + 1, rpc.latest.value);
    var n := Matched(ts, diesAt);
    Stays(WorkerMachine(c), s);
    ScanBegins(c, s, rpc.latest.value, ts, q, clock);
    StepGets(c, s, s, s.now, BeginScan(rpc.latest.value, ts));
    MatchLoop(c, s, range, ts, q, clock, n);
    Leads(WorkerMachine(c), s, Scanned(s, range, ts, q, clock, 0), Scanned(s, range, ts, q, clock, n));
    ScanEnds(c, s, Scanned(s, range, ts, q, clock, n));
  }

  /** The ledger and the cursor are those of the scan. */
  lemma ScanEndIsScanPass(s: State, rpc: Rpc, q: RowOrder, clock: nat -> int, diesAt: nat)
    ensures var r, p := ScanEnd(s, rpc, q, clock, diesAt), ScanPass(s.ledger, s.cursor, rpc, q, clock, diesAt);
      && r.ledger == p.ledger && r.cursor == p.cursor
      && r.scans == (if p.completed && Fetches(s, rpc) then s.scans + [Range(s.cursor + 1, rpc.latest.value)] else s.scans)
      && r.offered == s.offered + Members(Fetched(s, rpc)[..Matched(Fetched(s, rpc), diesAt)])
  {
    var ts := Fetched(s, rpc);
    assert ts[..|ts|] == ts;
    if !Fetches(s, rpc) {
      assert s.offered + Members(ts[..Matched(ts, diesAt)]) == s.offered;
    }
  }

  /** `runBlockchainScan` continues any run that has come to an idle state, to an idle
      state with the ledger and the cursor of the scan: through RPC errors, a height that
      is not new, and a death after any number of transfers. */
  lemma ScanIsARun(c: Config, states: seq<State>, steps: seq<Step>, rpc: Rpc, q: RowOrder, clock: nat -> int, diesAt: nat)
    returns (states': seq<State>, steps': seq<Step>)
    requires IsRun(c, states, steps) && states[|steps|].phase.Idle? && HonestRows(q) && HonestRpc(c, states[|steps|], rpc)
    requires ForwardScan(clock, states[|steps|].now, Matched(Fetched(states[|steps|], rpc), diesAt))
    ensures IsRun(c, states', steps') && states <= states' && steps <= steps'
    ensures states'[|steps'|] == ScanEnd(states[|steps|], rpc, q, clock, diesAt)
    ensures var s, s' := states[|steps|], states'[|steps'|];
      var p := ScanPass(s.ledger, s.cursor, rpc, q, clock, diesAt);
      s'.ledger == p.ledger && s'.cursor == p.cursor && s'.phase.Idle?
  {
    var s := states[|steps|];
    ScanEndIsScanPass(s, rpc, q, clock, diesAt);
    states', steps' := states, steps;
    if Fetches(s, rpc) {
      ScanGets(c, s, rpc, q, clock, diesAt);
      states', steps' := RunGoesOn(c, states, steps, ScanEnd(s, rpc, q, clock, diesAt));
    }
  }
}
