/** The API's pipeline in fake mode as one state machine: the in-memory chain, the
    `ticking` flag, the watermark `lastScannedBlock` and the phases of a tick, with
    simulated payments, new invoices, further tick attempts, the passing of time and
    restarts of the process between any two steps. The clock never goes back. */
module ApiPipeline {
  import opened Common
  import opened Records
  import opened BlockchainScan
  import opened PaymentConfirm
  import opened PaymentAdvance
  import opened ConfirmationPass
  import opened Expiry
  import opened FakeBlockchain
  import opened Pipeline
  import opened RowMoves
  import I = InvoiceStateMachine

  datatype TickPhase =
    | Off
    | Expire(overdue: seq<ExpiryRow>)
    | Fetch(latest: nat)
    | Match(latest: nat, todo: seq<Transfer>)
    | Scanned
    | Advance(rows: seq<Row>)
    | Broken  // a transition assertion threw

  datatype ApiState = ApiState(
    chain: Chain, ledger: Ledger, now: int, lastScannedBlock: int,
    ticking: bool, phase: TickPhase, offered: set<Transfer>)

  datatype ApiStep =
    | NewInvoice(invoice: Invoice)
    | Elapse(ms: nat)
    | Simulate(txHash: string, network: string, token: string, fromAddress: string, toAddress: string, amount: nat)
    | TryTick(overdue: seq<nat>)
    | ExpireOne
    | ReadHeight
    | FetchTransfers
    | MatchOne(candidates: seq<nat>)
    | EndDetect
    | ReadActive(active: seq<nat>)
    | AdvanceOne(asked: int)
    | EndTick
    | Throw
    | Restart

  ghost predicate Can(s: ApiState, step: ApiStep) {
    match step
    case NewInvoice(_) => true
    case Elapse(_) => true
    case Simulate(h, _, _, _, _, _) => s.chain.blockTimeMs > 0 && h !in s.chain.byTxHash
    case TryTick(ids) => Lists(ids, Overdue(s.ledger, s.now))
    case ExpireOne => s.phase.Expire? && s.phase.overdue != [] && s.phase.overdue[0].id < |s.ledger.invoices|
    case ReadHeight => s.phase == Expire([]) && s.chain.blockTimeMs > 0
    case FetchTransfers => s.phase.Fetch? && s.lastScannedBlock >= -1
    case MatchOne(ids) => s.phase.Match? && s.phase.todo != [] && Lists(ids, Candidates(s.ledger, s.phase.todo[0]))
    case EndDetect => s.phase.Match? && s.phase.todo == []
    case ReadActive(ids) =>
      s.phase == Scanned && Lists(ids, AdvancingPayments(s.ledger)) && forall k :: k in ids ==> HasRow(s.ledger, k)
    case AdvanceOne(asked) =>
      && asked <= s.now && s.phase.Advance? && s.phase.rows != [] && InLedger(s.ledger, s.phase.rows[0]) && s.chain.blockTimeMs > 0
    case EndTick => s.phase == Advance([])
    case Throw => s.phase != Broken
    case Restart => s.chain.blockTimeMs > 0
  }

  /** The adapter's answer about the payment of a row, given at time `asked`. */
  function ChainReply(s: ApiState, row: Row, asked: int): Reply
    requires s.chain.blockTimeMs > 0
  {
    if row.payment.txHash.Some? then s.chain.Confirmations(row.payment.txHash.value, asked) else NotFound
  }

  function Max(a: int, b: int): int { if a < b then b else a }

  ghost function Next(s: ApiState, step: ApiStep, required: nat): ApiState
    requires Can(s, step)
  {
    match step
    case NewInvoice(inv) => s.(ledger := AddInvoice(s.ledger, inv))
    case Elapse(ms) => s.(now := s.now + ms)
    case Simulate(h, network, token, fromA, toA, amount) =>
      s.(chain := s.chain.File(Transfer(h, network, token, fromA, toA, amount, s.chain.CurrentBlock(s.now))))
    case TryTick(ids) =>
      if s.ticking then s else s.(ticking := true, phase := Expire(ReadExpiryRows(s.ledger, ids)))
    case ExpireOne =>
      var row := s.phase.overdue[0];
      s.(ledger := Records.Expire(s.ledger, row.id, row.invoice), phase := Expire(s.phase.overdue[1..]))
    case ReadHeight => s.(phase := Fetch(s.chain.CurrentBlock(s.now)))
    case FetchTransfers =>
      s.(phase := Match(s.phase.latest,
        if s.phase.latest > s.lastScannedBlock then s.chain.Between(s.lastScannedBlock + 1, s.phase.latest) else []))
    case MatchOne(ids) =>
      var t := s.phase.todo[0];
      s.(ledger := MatchTransfer(s.ledger, ids, t, s.now),
         phase := Match(s.phase.latest, s.phase.todo[1..]), offered := s.offered + {t})
    case EndDetect => s.(lastScannedBlock := Max(s.lastScannedBlock, s.phase.latest - 1), phase := Scanned)
    case ReadActive(ids) => s.(phase := Advance(ReadRows(s.ledger, ids)))
    case AdvanceOne(asked) =>
      var row := s.phase.rows[0];
      var r := AdvanceRow(s.ledger, row, ChainReply(s, row, asked), s.now, required);
      if r.outcome == InvalidTransition then s.(phase := Broken)
      else s.(ledger := r.ledger, phase := Advance(s.phase.rows[1..]))
    case EndTick => s.(ticking := false, phase := Off)
    case Throw => s.(ticking := false, phase := Off)
    case Restart =>
      s.(chain := Chain(s.now, s.chain.blockTimeMs, map[], map[]), lastScannedBlock := -1,
         ticking := false, phase := Off, offered := {})
  }

  // ----- the invariant

  ghost predicate OnFile(c: Chain, t: Transfer) {
    t in c.AtBlock(t.blockNumber)
  }

  ghost predicate AdvanceCurrent(l: Ledger, rows: seq<Row>) {
    && (forall i, j :: 0 <= i < j < |rows| ==> rows[i].id != rows[j].id)
    && (forall j :: 0 <= j < |rows| ==> Current(l, rows[j]) && rows[j].id in AdvancingPayments(l))
  }

  ghost predicate TickFits(s: ApiState)
    requires s.chain.blockTimeMs > 0
  {
    match s.phase
    case Off => true
    case Expire(rows) => OverdueCurrent(s.ledger, rows)
    case Fetch(latest) => latest <= s.chain.CurrentBlock(s.now)
    case Match(latest, todo) =>
      && latest <= s.chain.CurrentBlock(s.now)
      && forall t :: OnFile(s.chain, t) && t.blockNumber < latest ==> t in s.offered || t in todo
    case Scanned => true
    case Advance(rows) => AdvanceCurrent(s.ledger, rows)
    case Broken => false
  }

  /** The books are in order, the scanner is, and a tick is running exactly when the
      flag says so. */
  ghost predicate Sound(s: ApiState, required: nat) {
    && Inv(s.ledger, required)
    && ScannerSound(s)
    && (s.ticking <==> s.phase != Off)
    && TickFits(s)
  }

  /** The watermark stays below the current block, and everything at or below it has
      been offered for matching. */
  ghost predicate ScannerSound(s: ApiState) {
    && s.chain.Valid()
    && (forall t :: OnFile(s.chain, t) ==> t.blockNumber <= s.chain.CurrentBlock(s.now))
    && -1 <= s.lastScannedBlock < s.chain.CurrentBlock(s.now)
    && (forall t :: OnFile(s.chain, t) && t.blockNumber <= s.lastScannedBlock ==> t in s.offered)
  }

  ghost predicate StartState(s: ApiState) {
    && s.ledger == EMPTY && s.chain.blockTimeMs > 0
    && s == ApiState(Chain(s.now, s.chain.blockTimeMs, map[], map[]), EMPTY, s.now, -1, false, Off, {})
  }

  // ----- one step

  lemma NewInvoiceKeepsSound(s: ApiState, step: ApiStep, required: nat)
    requires Sound(s, required) && Can(s, step) && step.NewInvoice?
    ensures Sound(Next(s, step, required), required)
  {
    AddInvoiceKeepsInv(s.ledger, step.invoice, required);
    if s.phase.Advance? {
      var l' := AddInvoice(s.ledger, step.invoice);
      forall j | 0 <= j < |s.phase.rows| ensures Current(l', s.phase.rows[j]) && s.phase.rows[j].id in AdvancingPayments(l') {
        assert Current(s.ledger, s.phase.rows[j]);
      }
    }
  }

  lemma ElapseKeepsSound(s: ApiState, step: ApiStep, required: nat)
    requires Sound(s, required) && Can(s, step) && step.Elapse?
    ensures Sound(Next(s, step, required), required)
  {
    HeightGrows(s.chain, s.now, s.now + step.ms);
  }

  lemma FilingAddsOne(c: Chain, t: Transfer)
    requires c.Valid() && t.txHash !in c.byTxHash
    ensures c.File(t).Valid()
    ensures forall b: nat :: b != t.blockNumber ==> c.File(t).AtBlock(b) == c.AtBlock(b)
    ensures forall x :: OnFile(c.File(t), x) <==> OnFile(c, x) || x == t
  {
    FileKeepsValid(c, t);
    forall x ensures OnFile(c.File(t), x) <==> OnFile(c, x) || x == t {
      if x == t {
        assert c.File(t).AtBlock(t.blockNumber)[|c.AtBlock(t.blockNumber)|] == t;
      }
    }
  }

  lemma SimulateKeepsSound(s: ApiState, step: ApiStep, required: nat)
    requires Sound(s, required) && Can(s, step) && step.Simulate?
    ensures Sound(Next(s, step, required), required)
    ensures forall b: nat :: b <= s.lastScannedBlock ==> Next(s, step, required).chain.AtBlock(b) == s.chain.AtBlock(b)
  {
    FilingAddsOne(s.chain,
      Transfer(step.txHash, step.network, step.token, step.fromAddress, step.toAddress, step.amount, s.chain.CurrentBlock(s.now)));
  }

  lemma FetchCoversTheRange(s: ApiState, latest: nat, t: Transfer)
    requires ScannerSound(s) && OnFile(s.chain, t) && t.blockNumber < latest
    ensures t in s.offered || (latest > s.lastScannedBlock && t in s.chain.Between(s.lastScannedBlock + 1, latest))
  {
    if latest > s.lastScannedBlock {
      BetweenMeans(s.chain, s.lastScannedBlock + 1, latest);
    }
  }

  lemma FetchKeepsSound(s: ApiState, step: ApiStep, required: nat)
    requires Sound(s, required) && Can(s, step) && step.FetchTransfers?
    ensures Sound(Next(s, step, required), required)
  {
    var latest, todo := s.phase.latest, Next(s, step, required).phase.todo;
    forall t | OnFile(s.chain, t) && t.blockNumber < latest ensures t in s.offered || t in todo {
      FetchCoversTheRange(s, latest, t);
    }
  }

  lemma MatchKeepsSound(s: ApiState, step: ApiStep, required: nat)
    requires Sound(s, required) && Can(s, step) && step.MatchOne?
    ensures Sound(Next(s, step, required), required)
  {
    MatchKeepsInv(s.ledger, step.candidates, s.phase.todo[0], s.now, required);
  }

  lemma AdvanceApplies(s: ApiState, step: ApiStep, required: nat) returns (v: Verdict)
    requires Sound(s, required) && Can(s, step) && step.AdvanceOne?
    ensures var row := s.phase.rows[0];
      && HasRow(s.ledger, row.id) && row.payment == s.ledger.payments[row.id] && Allowed(row.payment.status, v, required)
      && Next(s, step, required) == s.(ledger := Apply(s.ledger, row.id, v, s.now), phase := Advance(s.phase.rows[1..]))
  {
    var row := s.phase.rows[0];
    v := ApiVerdict(row.payment, ChainReply(s, row, step.asked), required);
    ApiRowMatchesTable(s.ledger, row, ChainReply(s, row, step.asked), s.now, required);
    VerdictsAllowed(Api, row.payment, ChainReply(s, row, step.asked), s.now, required);
  }

  lemma OthersStayCurrent(l: Ledger, rows: seq<Row>, v: Verdict, now: int, required: nat)
    requires Inv(l, required) && rows != [] && AdvanceCurrent(l, rows) && HasRow(l, rows[0].id)
    ensures AdvanceCurrent(Apply(l, rows[0].id, v, now), rows[1..])
  {
    var l' := Apply(l, rows[0].id, v, now);
    forall j | 0 <= j < |rows[1..]| ensures Current(l', rows[1..][j]) && rows[1..][j].id in AdvancingPayments(l') {
      var other := rows[j + 1];
      assert Current(l, rows[0]) && Current(l, other) && other.id != rows[0].id;
      assert other.payment.invoiceId != rows[0].payment.invoiceId;
    }
  }

  lemma AdvanceKeepsSound(s: ApiState, step: ApiStep, required: nat)
    requires Sound(s, required) && Can(s, step) && step.AdvanceOne?
    ensures Sound(Next(s, step, required), required) && Moves(s.ledger, Next(s, step, required).ledger)
  {
    var row := s.phase.rows[0];
    var v := AdvanceApplies(s, step, required);
    ApplyKeepsInv(s.ledger, row.id, v, s.now, required);
    ApplyMoves(s.ledger, row.id, v, s.now, required);
    OthersStayCurrent(s.ledger, s.phase.rows, v, s.now, required);
  }

  lemma ExpireKeepsSound(s: ApiState, step: ApiStep, required: nat)
    requires Sound(s, required) && Can(s, step) && step.ExpireOne?
    ensures Sound(Next(s, step, required), required)
  {
    ExpireKeepsInv(s.ledger, s.phase.overdue[0].id, required);
  }

  lemma ReadingKeepsSound(s: ApiState, step: ApiStep, required: nat)
    requires Sound(s, required) && Can(s, step) && (step.TryTick? || step.ReadActive?)
    ensures Sound(Next(s, step, required), required)
  {
    match step
    case TryTick(ids) => assert forall j :: 0 <= j < |ids| ==> ids[j] in ids;
    case ReadActive(ids) => assert forall j :: 0 <= j < |ids| ==> ids[j] in ids;
  }

  /** Steps that write no row and read none. */
  lemma QuietStepKeepsSound(s: ApiState, step: ApiStep, required: nat)
    requires Sound(s, required) && Can(s, step)
    requires step.ReadHeight? || step.EndDetect? || step.EndTick? || step.Throw? || step.Restart?
    ensures Sound(Next(s, step, required), required)
  {
  }

  lemma NextKeepsSound(s: ApiState, step: ApiStep, required: nat)
    requires Sound(s, required) && Can(s, step)
    ensures Sound(Next(s, step, required), required)
  {
    match step
    case NewInvoice(_) => NewInvoiceKeepsSound(s, step, required);
    case Elapse(_) => ElapseKeepsSound(s, step, required);
    case Simulate(_, _, _, _, _, _) => SimulateKeepsSound(s, step, required);
    case ExpireOne => ExpireKeepsSound(s, step, required);
    case FetchTransfers => FetchKeepsSound(s, step, required);
    case MatchOne(_) => MatchKeepsSound(s, step, required);
    case AdvanceOne(_) => AdvanceKeepsSound(s, step, required);
    case TryTick(_) => ReadingKeepsSound(s, step, required);
    case ReadActive(_) => ReadingKeepsSound(s, step, required);
    case _ => QuietStepKeepsSound(s, step, required);
  }

  lemma NextMoves(s: ApiState, step: ApiStep, required: nat)
    requires Sound(s, required) && Can(s, step)
    ensures Moves(s.ledger, Next(s, step, required).ledger)
  {
    if step.AdvanceOne? {
      AdvanceKeepsSound(s, step, required);
    } else if step.MatchOne? {
      MatchMoves(s.ledger, step.candidates, s.phase.todo[0], s.now);
    }
  }

  /** While the process lives, no step adds a transfer to a block that is already
      scanned, and the watermark does not fall. */
  lemma ScannedBlocksAreFrozen(s: ApiState, step: ApiStep, required: nat)
    requires Sound(s, required) && Can(s, step) && !step.Restart?
    ensures s.lastScannedBlock <= Next(s, step, required).lastScannedBlock
    ensures forall b: nat :: b <= s.lastScannedBlock ==> Next(s, step, required).chain.AtBlock(b) == s.chain.AtBlock(b)
  {
    if step.Simulate? {
      SimulateKeepsSound(s, step, required);
    }
  }

  // ----- whole runs

  ghost predicate IsApiRun(states: seq<ApiState>, steps: seq<ApiStep>, required: nat) {
    && |states| == |steps| + 1
    && StartState(states[0])
    && forall i :: 0 <= i < |steps| ==> Can(states[i], steps[i]) && states[i + 1] == Next(states[i], steps[i], required)
  }

  lemma {:induction false} ApiRunsAreSound(states: seq<ApiState>, steps: seq<ApiStep>, required: nat, n: nat)
    requires IsApiRun(states, steps, required) && n < |states|
    ensures Sound(states[n], required)
    decreases n
  {
    if n > 0 {
      ApiRunsAreSound(states, steps, required, n - 1);
      NextKeepsSound(states[n - 1], steps[n - 1], required);
    } else {
      assert forall t :: !OnFile(states[0].chain, t);
    }
  }

  /** The scanner misses nothing: between two states of one process life, whatever was
      at or below the earlier watermark is still all there is, it was offered for
      matching, and no hash has two payments. */
  lemma {:induction false} ScannerMissesNothing(states: seq<ApiState>, steps: seq<ApiStep>, required: nat, m: nat, n: nat)
    requires IsApiRun(states, steps, required) && m <= n < |states|
    requires forall i :: m <= i < n ==> !steps[i].Restart?
    ensures states[n].chain.blockTimeMs > 0
    ensures states[m].lastScannedBlock <= states[n].lastScannedBlock < states[n].chain.CurrentBlock(states[n].now)
    ensures forall b: nat :: b <= states[m].lastScannedBlock ==> states[n].chain.AtBlock(b) == states[m].chain.AtBlock(b)
    ensures forall t :: OnFile(states[n].chain, t) && t.blockNumber <= states[n].lastScannedBlock ==> t in states[n].offered
    ensures HashesUnique(states[n].ledger)
    decreases n
  {
    ApiRunsAreSound(states, steps, required, n);
    if m < n {
      ScannerMissesNothing(states, steps, required, m, n - 1);
      ApiRunsAreSound(states, steps, required, n - 1);
      ScannedBlocksAreFrozen(states[n - 1], steps[n - 1], required);
    }
  }

  function Ledgers(states: seq<ApiState>): seq<Ledger> {
    seq(|states|, j requires 0 <= j < |states| => states[j].ledger)
  }

  /** In the API, too, the status of an invoice changes at most three times. */
  lemma AtMostThreeChanges(states: seq<ApiState>, steps: seq<ApiStep>, required: nat, i: nat)
    requires IsApiRun(states, steps, required)
    ensures Changes(Ledgers(states), i) <= 3
  {
    var ls := Ledgers(states);
    forall j | 0 <= j < |steps| ensures Moves(ls[j], ls[j + 1]) {
      ApiRunsAreSound(states, steps, required, j);
      NextMoves(states[j], steps[j], required);
    }
    ApiRunsAreSound(states, steps, required, |steps|);
    ChangesAreFew(ls, i, required);
  }

  // ----- a simulation while another tick is running

  lemma OnlyCandidateIsDetected(l: Ledger, t: Transfer, now: int)
    requires Candidates(l, t) == {0} && l.payments == []
    ensures Lists([0], Candidates(l, t)) && |MatchTransfer(l, [0], t, now).invoices| == |l.invoices| > 0
    ensures MatchTransfer(l, [0], t, now).invoices[0].status == I.Detected
  {
    assert 0 in Candidates(l, t);
    QueriesMean(l, t);
    MatchMeans(l, [0], t, now);
    var i: nat :| Chosen(l, t, i) && MatchTransfer(l, [0], t, now) == Detect(l, i, NewPayment(i, l.invoices[i], t, now));
    assert i in {0};
  }

  /** A state of the run below: one invoice of 1 unit at address "a", at time 0. */
  function Snap(chain: Chain, ledger: Ledger, ticking: bool, phase: TickPhase): ApiState {
    ApiState(chain, ledger, 0, -1, ticking, phase, {})
  }

  const ONE_INVOICE := Ledger([Invoice("org", None, 1, "USD", "USDC", "base", "a", 0, 1, I.Pending, None)], [], [])
  const ITS_TRANSFER := Transfer("h", "base", "USDC", "b", "a", 1, 0)
  const NO_BLOCKS := Chain(0, 1000, map[], map[])

  predicate Reads(s: ApiState, status: I.Status) {
    |s.ledger.invoices| == 1 && s.ledger.invoices[0].status == status
  }

  predicate AsSimulated(s: ApiState) {
    s.chain == NO_BLOCKS.File(ITS_TRANSFER) && s.chain.CurrentBlock(0) == 0 && s.now == 0 && s.lastScannedBlock == -1
  }

  lemma TickStarts()
    ensures var s0, s1 := Snap(NO_BLOCKS, EMPTY, false, Off), Snap(NO_BLOCKS, ONE_INVOICE, false, Off);
      && StartState(s0)
      && Can(s0, NewInvoice(ONE_INVOICE.invoices[0])) && Next(s0, NewInvoice(ONE_INVOICE.invoices[0]), 1) == s1
      && Can(s1, TryTick([])) && Next(s1, TryTick([]), 1) == Snap(NO_BLOCKS, ONE_INVOICE, true, Expire([]))
  {
    assert EMPTY.invoices + [ONE_INVOICE.invoices[0]] == ONE_INVOICE.invoices;
    assert Overdue(ONE_INVOICE, 0) == {};
  }

  lemma TransferLands(step: ApiStep)
    requires step == Simulate("h", "base", "USDC", "b", "a", 1)
    ensures var s2 := Snap(NO_BLOCKS, ONE_INVOICE, true, Expire([]));
      Can(s2, step) && Next(s2, step, 1) == s2.(chain := NO_BLOCKS.File(ITS_TRANSFER)) && AsSimulated(Next(s2, step, 1))
  {
  }

  lemma TickFetchesIt(s: ApiState)
    requires AsSimulated(s) && s.phase == Expire([])
    ensures Can(s, ReadHeight) && Next(s, ReadHeight, 1) == s.(phase := Fetch(0))
    ensures var s4 := s.(phase := Fetch(0));
      Can(s4, FetchTransfers) && Next(s4, FetchTransfers, 1) == s.(phase := Match(0, [ITS_TRANSFER]))
  {
    assert [] + [ITS_TRANSFER] == [ITS_TRANSFER];
    assert s.chain.AtBlock(0) == NO_BLOCKS.AtBlock(0) + [ITS_TRANSFER];
    assert s.chain.Between(0, 0) == s.chain.Between(0, -1) + s.chain.AtBlock(0) == [ITS_TRANSFER];
  }

  lemma TickMatchesIt(s: ApiState)
    requires s.phase == Match(0, [ITS_TRANSFER]) && s.ledger == ONE_INVOICE
    ensures Can(s, MatchOne([0])) && Reads(Next(s, MatchOne([0]), 1), I.Detected)
  {
    assert Candidates(ONE_INVOICE, ITS_TRANSFER) == {0};
    OnlyCandidateIsDetected(ONE_INVOICE, ITS_TRANSFER, s.now);
  }

  lemma OneMore(states: seq<ApiState>, steps: seq<ApiStep>, step: ApiStep, s: ApiState)
    returns (states': seq<ApiState>, steps': seq<ApiStep>)
    requires IsApiRun(states, steps, 1) && Can(states[|steps|], step) && s == Next(states[|steps|], step, 1)
    ensures states' == states + [s] && steps' == steps + [step] && IsApiRun(states', steps', 1)
  {
    states', steps' := states + [s], steps + [step];
  }

  lemma SimulationDuringATick() returns (states: seq<ApiState>, steps: seq<ApiStep>)
    ensures IsApiRun(states, steps, 1) && |steps| == 3
    ensures steps[2].Simulate? && states[2].ticking && Reads(states[2], I.Pending)
    ensures states[3] == Snap(NO_BLOCKS.File(ITS_TRANSFER), ONE_INVOICE, true, Expire([])) && AsSimulated(states[3])
  {
    var send := Simulate("h", "base", "USDC", "b", "a", 1);
    var s2 := Snap(NO_BLOCKS, ONE_INVOICE, true, Expire([]));
    TickStarts();
    TransferLands(send);
    states, steps := [Snap(NO_BLOCKS, EMPTY, false, Off)], [];
    states, steps := OneMore(states, steps, NewInvoice(ONE_INVOICE.invoices[0]), Snap(NO_BLOCKS, ONE_INVOICE, false, Off));
    states, steps := OneMore(states, steps, TryTick([]), s2);
    states, steps := OneMore(states, steps, send, s2.(chain := NO_BLOCKS.File(ITS_TRANSFER)));
  }

  lemma TickFetchesOn() returns (states: seq<ApiState>, steps: seq<ApiStep>)
    ensures IsApiRun(states, steps, 1) && |steps| == 5
    ensures steps[2].Simulate? && states[2].ticking && Reads(states[2], I.Pending) && Reads(states[3], I.Pending)
    ensures states[5].phase == Match(0, [ITS_TRANSFER]) && states[5].ledger == ONE_INVOICE
  {
    states, steps := SimulationDuringATick();
    var s3 := states[3];
    TickFetchesIt(s3);
    states, steps := OneMore(states, steps, ReadHeight, s3.(phase := Fetch(0)));
    states, steps := OneMore(states, steps, FetchTransfers, s3.(phase := Match(0, [ITS_TRANSFER])));
  }

  /** A payment simulated while another tick is between its expiry and its fetch: the
      caller's own tick returns at once, and reading the invoice then gives Pending at
      first and, once the other tick has matched the transfer, Detected. */
  lemma OverlappingTickShowsDetected() returns (states: seq<ApiState>, steps: seq<ApiStep>)
    ensures IsApiRun(states, steps, 1) && |steps| == 6
    ensures steps[2].Simulate? && states[2].ticking && Reads(states[2], I.Pending)
    ensures Reads(states[3], I.Pending) && Reads(states[6], I.Detected)
  {
    states, steps := TickFetchesOn();
    TickMatchesIt(states[5]);
    states, steps := OneMore(states, steps, MatchOne([0]), Next(states[5], MatchOne([0]), 1));
  }
}
