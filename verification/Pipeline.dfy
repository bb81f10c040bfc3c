/** The worker's payment pipeline as one state machine. A step is one transaction,
    one query, or one move of the environment, and between any two steps of a pass
    invoices may be created, time may pass and blocks may be mined. A scan pass and a
    confirmation pass are serialized against each other; any pass may be cut off
    between two transactions by an RPC error or a crash. */
module Pipeline {
  import opened Common
  import opened Records
  import opened BlockchainScan
  import opened PaymentConfirm
  import opened Expiry
  import I = InvoiceStateMachine

  /** The settings of a run: the confirmation threshold and the chain, whose blocks
      never change once they are mined. */
  datatype Config = Config(required: nat, chain: nat -> seq<Transfer>)

  datatype Range = Range(from: int, to: int)

  datatype ExpiryRow = ExpiryRow(id: nat, invoice: Invoice)

  /** Where the running pass is, with the rows it read earlier. */
  datatype Phase =
    | Idle
    | Expiring(overdue: seq<ExpiryRow>)
    | Confirming(rows: seq<Row>)
    | Scanning(range: Range, todo: seq<Transfer>)
    | Crashed  // a transition assertion threw

  /** `scans` and `offered` record history: the ranges of completed scans and the
      transfers that have been offered for matching. */
  datatype State = State(
    ledger: Ledger, cursor: int, now: int, height: nat, phase: Phase,
    scans: seq<Range>, offered: set<Transfer>)

  datatype Step =
    | Create(invoice: Invoice)
    | Wait(ms: nat)
    | Mine
    | BeginConfirm(overdue: seq<nat>)
    | ExpireNext
    | BeginRows(active: seq<nat>)
    | ConfirmNext(reply: Reply)
    | EndConfirm
    | BeginScan(latest: nat, todo: seq<Transfer>)
    | MatchNext(candidates: seq<nat>)
    | EndScan
    | Abort

  ghost predicate OnChain(c: Config, r: Range, t: Transfer) {
    exists b: nat :: r.from <= b <= r.to && t in c.chain(b)
  }

  function Start(now: int): State {
    State(EMPTY, -1, now, 0, Idle, [], {})
  }

  ghost predicate Enabled(c: Config, s: State, step: Step) {
    match step
    case Create(_) => true
    case Wait(_) => true
    case Mine => true
    case BeginConfirm(ids) => s.phase.Idle? && Lists(ids, Overdue(s.ledger, s.now))
    case ExpireNext => s.phase.Expiring? && s.phase.overdue != [] && s.phase.overdue[0].id < |s.ledger.invoices|
    case BeginRows(ids) =>
      s.phase == Expiring([]) && Lists(ids, ActivePayments(s.ledger)) && forall k :: k in ids ==> HasRow(s.ledger, k)
    case ConfirmNext(reply) =>
      s.phase.Confirming? && s.phase.rows != [] && InLedger(s.ledger, s.phase.rows[0]) && !reply.RpcError?
    case EndConfirm => s.phase == Confirming([])
    case BeginScan(latest, todo) =>
      s.phase.Idle? && latest <= s.height && forall t :: t in todo <==> OnChain(c, Range(s.cursor + 1, latest), t)
    case MatchNext(ids) => s.phase.Scanning? && s.phase.todo != [] && Lists(ids, Candidates(s.ledger, s.phase.todo[0]))
    case EndScan => s.phase.Scanning? && s.phase.todo == []
    case Abort => !s.phase.Crashed?
  }

  function ReadExpiryRows(l: Ledger, ids: seq<nat>): (r: seq<ExpiryRow>)
    requires forall i :: i in ids ==> i < |l.invoices|
    ensures |r| == |ids| && forall j :: 0 <= j < |ids| ==> ids[j] < |l.invoices| && r[j] == ExpiryRow(ids[j], l.invoices[ids[j]])
  {
    assert forall j :: 0 <= j < |ids| ==> ids[j] in ids;
    seq(|ids|, j requires 0 <= j < |ids| => ExpiryRow(ids[j], l.invoices[ids[j]]))
  }

  ghost function Do(c: Config, s: State, step: Step): State
    requires Enabled(c, s, step)
  {
    match step
    case Create(inv) => s.(ledger := AddInvoice(s.ledger, inv))
    case Wait(ms) => s.(now := s.now + ms)
    case Mine => s.(height := s.height + 1)
    case BeginConfirm(ids) => s.(phase := Expiring(ReadExpiryRows(s.ledger, ids)))
    case ExpireNext =>
      var row := s.phase.overdue[0];
      s.(ledger := Expire(s.ledger, row.id, row.invoice), phase := Expiring(s.phase.overdue[1..]))
    case BeginRows(ids) => s.(phase := Confirming(ReadRows(s.ledger, ids)))
    case ConfirmNext(reply) =>
      var row := s.phase.rows[0];
      var r := ConfirmRow(s.ledger, row, reply, s.now, c.required);
      if r.outcome == InvalidTransition then s.(phase := Crashed)
      else s.(ledger := r.ledger, phase := Confirming(s.phase.rows[1..]))
    case EndConfirm => s.(phase := Idle)
    case BeginScan(latest, todo) =>
      if latest < s.cursor + 1 then s
      else s.(phase := Scanning(Range(s.cursor + 1, latest), todo))
    case MatchNext(ids) =>
      var t := s.phase.todo[0];
      s.(ledger := MatchTransfer(s.ledger, ids, t, s.now),
         phase := Scanning(s.phase.range, s.phase.todo[1..]), offered := s.offered + {t})
    case EndScan =>
      s.(cursor := s.phase.range.to, phase := Idle, scans := s.scans + [s.phase.range])
    case Abort => s.(phase := Idle)
  }

  // ----- the invariant of the machine

  /** The completed ranges follow each other without gap or overlap from block 0 to
      the cursor. */
  predicate Tiles(scans: seq<Range>, cursor: int) {
    if scans == [] then cursor == -1
    else
      var last := scans[|scans| - 1];
      last.from <= last.to == cursor && Tiles(scans[..|scans| - 1], last.from - 1)
  }

  ghost predicate AllOffered(c: Config, s: State) {
    forall t :: OnChain(c, Range(0, s.cursor), t) ==> t in s.offered
  }

  ghost predicate RowsCurrent(l: Ledger, rows: seq<Row>) {
    && (forall i, j :: 0 <= i < j < |rows| ==> rows[i].id != rows[j].id)
    && (forall j :: 0 <= j < |rows| ==> Current(l, rows[j]) && rows[j].id in ActivePayments(l))
  }

  ghost predicate OverdueCurrent(l: Ledger, rows: seq<ExpiryRow>) {
    && (forall i, j :: 0 <= i < j < |rows| ==> rows[i].id != rows[j].id)
    && (forall j :: 0 <= j < |rows| ==>
          rows[j].id < |l.invoices| && rows[j].invoice == l.invoices[rows[j].id] && rows[j].invoice.status == I.Pending)
  }

  ghost predicate PhaseFits(c: Config, s: State) {
    match s.phase
    case Idle => true
    case Expiring(rows) => OverdueCurrent(s.ledger, rows)
    case Confirming(rows) => RowsCurrent(s.ledger, rows)
    case Scanning(range, todo) =>
      && range.from == s.cursor + 1 <= range.to <= s.height
      && forall t :: OnChain(c, range, t) ==> t in s.offered || t in todo
    case Crashed => false
  }

  ghost predicate Safe(c: Config, s: State) {
    && Inv(s.ledger, c.required)
    && -1 <= s.cursor <= s.height
    && Tiles(s.scans, s.cursor)
    && AllOffered(c, s)
    && PhaseFits(c, s)
  }

  // ----- one step

  lemma ConfirmStepSafe(c: Config, s: State, step: Step)
    requires Safe(c, s) && Enabled(c, s, step) && step.ConfirmNext?
    ensures Safe(c, Do(c, s, step))
    ensures var row := s.phase.rows[0];
      && Current(s.ledger, row)
      && Do(c, s, step).ledger == Apply(s.ledger, row.id, WorkerVerdict(row.payment, step.reply, s.now, c.required), s.now)
  {
    var rows := s.phase.rows;
    var row := rows[0];
    var v := WorkerVerdict(row.payment, step.reply, s.now, c.required);
    RowMatchesTable(s.ledger, row, step.reply, s.now, c.required);
    VerdictAllowed(row.payment, step.reply, s.now, c.required);
    ApplyKeepsInv(s.ledger, row.id, v, s.now, c.required);
    var s' := Do(c, s, step);
    forall j | 0 <= j < |rows[1..]| ensures Current(s'.ledger, rows[1..][j]) && rows[1..][j].id in ActivePayments(s'.ledger) {
      var other := rows[j + 1];
      assert Current(s.ledger, other) && other.id != row.id;
      assert other.payment.invoiceId != row.payment.invoiceId;
    }
  }

  lemma ExpireStepSafe(c: Config, s: State, step: Step)
    requires Safe(c, s) && Enabled(c, s, step) && step.ExpireNext?
    ensures Safe(c, Do(c, s, step))
  {
    ExpireKeepsInv(s.ledger, s.phase.overdue[0].id, c.required);
  }

  lemma ScanStepSafe(c: Config, s: State, step: Step)
    requires Safe(c, s) && Enabled(c, s, step) && (step.BeginScan? || step.MatchNext? || step.EndScan?)
    ensures Safe(c, Do(c, s, step))
  {
    match step
    case MatchNext(ids) =>
      MatchKeepsInv(s.ledger, ids, s.phase.todo[0], s.now, c.required);
    case EndScan =>
      var s' := Do(c, s, step);
      assert s'.scans[..|s'.scans| - 1] == s.scans;
      forall t | OnChain(c, Range(0, s'.cursor), t) ensures t in s'.offered {
        var b: nat :| 0 <= b <= s'.cursor && t in c.chain(b);
        if b <= s.cursor {
          assert OnChain(c, Range(0, s.cursor), t);
        } else {
          assert OnChain(c, s.phase.range, t);
        }
      }
    case _ =>
  }

  lemma CreateStepSafe(c: Config, s: State, step: Step)
    requires Safe(c, s) && Enabled(c, s, step) && step.Create?
    ensures Safe(c, Do(c, s, step))
  {
    AddInvoiceKeepsInv(s.ledger, step.invoice, c.required);
    if s.phase.Confirming? {
      var l' := Do(c, s, step).ledger;
      forall j | 0 <= j < |s.phase.rows| ensures Current(l', s.phase.rows[j]) && s.phase.rows[j].id in ActivePayments(l') {
        assert Current(s.ledger, s.phase.rows[j]);
      }
    }
  }

  lemma StepSafe(c: Config, s: State, step: Step)
    requires Safe(c, s) && Enabled(c, s, step)
    ensures Safe(c, Do(c, s, step))
  {
    match step
    case Create(_) => CreateStepSafe(c, s, step);
    case ConfirmNext(_) => ConfirmStepSafe(c, s, step);
    case ExpireNext => ExpireStepSafe(c, s, step);
    case BeginScan(_, _) => ScanStepSafe(c, s, step);
    case MatchNext(_) => ScanStepSafe(c, s, step);
    case EndScan => ScanStepSafe(c, s, step);
    case BeginConfirm(ids) => assert forall j :: 0 <= j < |ids| ==> ids[j] in ids;
    case BeginRows(ids) => assert forall j :: 0 <= j < |ids| ==> ids[j] in ids;
    case _ =>
  }
}
