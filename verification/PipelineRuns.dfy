/** What holds over whole runs of the worker's pipeline. */
module PipelineRuns {
  import opened Records
  import opened BlockchainScan
  import opened PaymentConfirm
  import opened Pipeline
  import opened RowMoves
  import I = InvoiceStateMachine
  import P = PaymentStateMachine

  ghost predicate IsRun(c: Config, states: seq<State>, steps: seq<Step>) {
    && |states| == |steps| + 1
    && states[0] == Start(states[0].now)
    && forall i :: 0 <= i < |steps| ==> Enabled(c, states[i], steps[i]) && states[i + 1] == Do(c, states[i], steps[i])
  }

  lemma RunPrefix(c: Config, states: seq<State>, steps: seq<Step>, n: nat)
    requires IsRun(c, states, steps) && n <= |steps|
    ensures IsRun(c, states[..n + 1], steps[..n])
  {
  }

  /** In every reachable state, half-finished and aborted passes included, the joint
      invariant holds and no transition assertion has thrown. */
  lemma {:induction false} RunsAreSafe(c: Config, states: seq<State>, steps: seq<Step>)
    requires IsRun(c, states, steps)
    ensures forall i :: 0 <= i < |states| ==> Safe(c, states[i]) && !states[i].phase.Crashed?
  {
    if steps == [] {
      assert forall b :: !OnChain(c, Range(0, -1), b);
    } else {
      var n := |steps| - 1;
      RunPrefix(c, states, steps, n);
      RunsAreSafe(c, states[..n + 1], steps[..n]);
      assert states[..n + 1][n] == states[n];
      StepSafe(c, states[n], steps[n]);
      forall i | 0 <= i < |states| ensures Safe(c, states[i]) {
        if i <= n { assert states[i] == states[..n + 1][i]; }
      }
    }
  }

  lemma SafeAt(c: Config, states: seq<State>, steps: seq<Step>, n: nat)
    requires IsRun(c, states, steps) && n < |states|
    ensures Safe(c, states[n])
    ensures n < |steps| ==> Enabled(c, states[n], steps[n]) && states[n + 1] == Do(c, states[n], steps[n])
  {
    RunsAreSafe(c, states, steps);
  }

  // ----- every write is an edge

  lemma StepMoves(c: Config, s: State, step: Step)
    requires Safe(c, s) && Enabled(c, s, step)
    ensures Moves(s.ledger, Do(c, s, step).ledger)
  {
    if step.ConfirmNext? {
      ConfirmStepSafe(c, s, step);
      var row := s.phase.rows[0];
      VerdictAllowed(row.payment, step.reply, s.now, c.required);
      ApplyMoves(s.ledger, row.id, WorkerVerdict(row.payment, step.reply, s.now, c.required), s.now, c.required);
    } else if step.MatchNext? {
      MatchMoves(s.ledger, step.candidates, s.phase.todo[0], s.now);
    }
  }

  /** In every reachable state there are as many events as invoices with an outcome
      to announce, one for each, of its kind and status; none for any other. */
  lemma EventsAreConserved(c: Config, states: seq<State>, steps: seq<Step>, n: nat)
    requires IsRun(c, states, steps) && n < |states|
    ensures var l := states[n].ledger;
      && |l.events| == |set i | 0 <= i < |l.invoices| && I.Settled(l.invoices[i].status)|
      && (forall i :: 0 <= i < |l.invoices| ==> (I.Settled(l.invoices[i].status) <==> exists e :: Announces(l, e, i)))
      && (forall e :: 0 <= e < |l.events| ==> EventFits(l, e))
      && OneEventEach(l)
  {
    SafeAt(c, states, steps, n);
    var l := states[n].ledger;
    EventsCountOutcomes(l, c.required);
    forall i | 0 <= i < |l.invoices| ensures I.Settled(l.invoices[i].status) <==> exists e :: Announces(l, e, i) {
      assert InvoiceFits(l, i);
      if e :| Announces(l, e, i) { assert EventFits(l, e); }
    }
  }

  // ----- an invoice changes at most three times

  function Ledgers(states: seq<State>): seq<Ledger> {
    seq(|states|, j requires 0 <= j < |states| => states[j].ledger)
  }

  /** From its creation on, the status of an invoice changes at most three times. */
  lemma AtMostThreeChanges(c: Config, states: seq<State>, steps: seq<Step>, i: nat)
    requires IsRun(c, states, steps)
    ensures Changes(Ledgers(states), i) <= 3
  {
    var ls := Ledgers(states);
    forall j | 0 <= j < |steps| ensures Moves(ls[j], ls[j + 1]) {
      SafeAt(c, states, steps, j);
      StepMoves(c, states[j], steps[j]);
    }
    SafeAt(c, states, steps, |steps|);
    ChangesAreFew(ls, i, c.required);
  }

  // ----- the grace period of a vanished transaction

  predicate Asks(s: State, step: Step, k: nat) {
    step.ConfirmNext? && s.phase.Confirming? && s.phase.rows != [] && s.phase.rows[0].id == k
  }

  predicate Suspected(s: State, k: nat) {
    k < |s.ledger.payments| && s.ledger.payments[k].status == P.ReorgDetected
  }

  /** Only asking about payment `k` changes it, and then by the decision table. */
  lemma OnlyAskingChanges(c: Config, s: State, step: Step, k: nat)
    requires Safe(c, s) && Enabled(c, s, step) && k < |s.ledger.payments|
    ensures k < |Do(c, s, step).ledger.payments|
    ensures var p, p' := s.ledger.payments[k], Do(c, s, step).ledger.payments[k];
      p' == if Asks(s, step, k) then After(p, WorkerVerdict(p, step.reply, s.now, c.required), s.now) else p
  {
    if step.ConfirmNext? {
      ConfirmStepSafe(c, s, step);
    } else if step.MatchNext? {
      MatchMeans(s.ledger, step.candidates, s.phase.todo[0], s.now);
    }
  }

  /** A payment under suspicion has been so, unseen, since the step `m` at which it
      was found missing while confirming; its `updatedAt` is the time of that step. */
  ghost predicate SuspectSince(states: seq<State>, steps: seq<Step>, k: nat, m: nat, n: nat) {
    && m < n < |states| == |steps| + 1
    && k < |states[m].ledger.payments| && states[m].ledger.payments[k].status == P.Confirming
    && Asks(states[m], steps[m], k) && steps[m].reply == NotFound
    && (forall j :: m < j <= n ==> Suspected(states[j], k) && states[j].ledger.payments[k].updatedAt == states[m].now)
    && (forall j :: m < j < n && Asks(states[j], steps[j], k) ==> steps[j].reply == NotFound)
  }

  /** One step back from a state in which payment `k` is under suspicion. */
  ghost predicate SuspectedBefore(s: State, step: Step, s': State, k: nat) {
    && k < |s.ledger.payments| && k < |s'.ledger.payments|
    && (Asks(s, step, k) ==> step.reply == NotFound)
    && if Suspected(s, k) then s'.ledger.payments[k] == s.ledger.payments[k]
       else s.ledger.payments[k].status == P.Confirming && Asks(s, step, k) && s'.ledger.payments[k].updatedAt == s.now
  }

  lemma SuspicionOneStepBack(c: Config, s: State, step: Step, k: nat)
    requires Safe(c, s) && Enabled(c, s, step) && Suspected(Do(c, s, step), k)
    ensures SuspectedBefore(s, step, Do(c, s, step), k)
  {
    StepMoves(c, s, step);
    OnlyAskingChanges(c, s, step, k);
  }

  lemma {:induction false} TraceSuspicion(states: seq<State>, steps: seq<Step>, k: nat, n: nat) returns (m: nat)
    requires |states| == |steps| + 1 && n < |states| && Suspected(states[n], k) && !Suspected(states[0], k)
    requires forall j :: 0 <= j < n && Suspected(states[j + 1], k) ==> SuspectedBefore(states[j], steps[j], states[j + 1], k)
    ensures SuspectSince(states, steps, k, m, n)
    decreases n
  {
    assert Suspected(states[n - 1 + 1], k) && SuspectedBefore(states[n - 1], steps[n - 1], states[n - 1 + 1], k);
    if Suspected(states[n - 1], k) {
      m := TraceSuspicion(states, steps, k, n - 1);
    } else {
      m := n - 1;
    }
  }

  lemma SuspicionHasABeginning(c: Config, states: seq<State>, steps: seq<Step>, k: nat, n: nat) returns (m: nat)
    requires IsRun(c, states, steps) && n < |states| && Suspected(states[n], k)
    ensures SuspectSince(states, steps, k, m, n)
  {
    forall j | 0 <= j < n && Suspected(states[j + 1], k)
      ensures SuspectedBefore(states[j], steps[j], states[j + 1], k)
    {
      SafeAt(c, states, steps, j);
      SuspicionOneStepBack(c, states[j], steps[j], k);
    }
    m := TraceSuspicion(states, steps, k, n);
  }

  /** The step that fails a suspect. */
  lemma SuspectIsFailed(c: Config, s: State, step: Step, k: nat)
    requires Safe(c, s) && Enabled(c, s, step) && Suspected(s, k)
    requires k < |Do(c, s, step).ledger.payments| && Do(c, s, step).ledger.payments[k].status == P.Failed
    ensures Asks(s, step, k) && step.reply == NotFound && s.now - s.ledger.payments[k].updatedAt >= 600_000
    ensures Do(c, s, step).ledger.payments[k].invoiceId == s.ledger.payments[k].invoiceId
  {
    OnlyAskingChanges(c, s, step, k);
  }

  /** A payment that vanished while confirming is failed only after ten minutes under
      suspicion during which it was never seen, and its invoice fails with it. */
  lemma FailedOnlyAfterGrace(c: Config, states: seq<State>, steps: seq<Step>, k: nat, n: nat) returns (m: nat)
    requires IsRun(c, states, steps) && n < |steps|
    requires Suspected(states[n], k)
    requires k < |states[n + 1].ledger.payments| && states[n + 1].ledger.payments[k].status == P.Failed
    ensures SuspectSince(states, steps, k, m, n)
    ensures Asks(states[n], steps[n], k) && steps[n].reply == NotFound
    ensures states[n].now - states[m].now >= 600_000
    ensures var i := states[n].ledger.payments[k].invoiceId;
      i < |states[n + 1].ledger.invoices| && states[n + 1].ledger.invoices[i].status == I.Failed
  {
    SafeAt(c, states, steps, n);
    SafeAt(c, states, steps, n + 1);
    m := SuspicionHasABeginning(c, states, steps, k, n);
    SuspectIsFailed(c, states[n], steps[n], k);
    assert PaymentFits(states[n + 1].ledger, k, c.required);
  }

  // ----- the deadline of a vanished transaction

  /** Steps `m` to `n` are the second half of a confirmation pass: it reads its rows at
      step `m` and ends, having got through them, at step `n`. Invoices may be created,
      time may pass and blocks may be mined in between. */
  ghost predicate CompletedPass(states: seq<State>, steps: seq<Step>, m: nat, n: nat) {
    && m < n < |steps| && |states| == |steps| + 1
    && steps[m].BeginRows? && steps[n].EndConfirm?
    && forall j :: m < j <= n ==> states[j].phase.Confirming?
  }

  ghost predicate InSnapshot(s: State, k: nat) {
    s.phase.Confirming? && exists j :: 0 <= j < |s.phase.rows| && s.phase.rows[j].id == k
  }

  lemma SnapshotShrinks(c: Config, s: State, step: Step, k: nat)
    requires Safe(c, s) && Enabled(c, s, step) && InSnapshot(s, k) && Do(c, s, step).phase.Confirming? && !Asks(s, step, k)
    ensures InSnapshot(Do(c, s, step), k)
  {
    var rows := s.phase.rows;
    var j :| 0 <= j < |rows| && rows[j].id == k;
    if step.ConfirmNext? {
      assert j > 0 && rows[1..][j - 1] == rows[j];
    }
  }

  /** A completed pass asks about every payment it has read, and until it does the
      payment stays as it was. */
  lemma {:induction false} EveryRowIsAsked(c: Config, states: seq<State>, steps: seq<Step>, k: nat, m: nat, n: nat) returns (a: nat)
    requires IsRun(c, states, steps) && m <= n < |steps| && steps[n].EndConfirm? && InSnapshot(states[m], k)
    requires k < |states[m].ledger.payments| && forall j :: m <= j <= n ==> states[j].phase.Confirming?
    ensures m <= a < n && Asks(states[a], steps[a], k)
    ensures k < |states[a].ledger.payments| && states[a].ledger.payments[k] == states[m].ledger.payments[k]
    ensures states[m].now <= states[a].now
    decreases n - m
  {
    SafeAt(c, states, steps, m);
    if Asks(states[m], steps[m], k) {
      a := m;
    } else {
      OnlyAskingChanges(c, states[m], steps[m], k);
      assert m != n;
      SnapshotShrinks(c, states[m], steps[m], k);
      a := EveryRowIsAsked(c, states, steps, k, m + 1, n);
    }
  }

  lemma ReadRowsAreInSnapshot(c: Config, s: State, step: Step, k: nat)
    requires Safe(c, s) && Enabled(c, s, step) && step.BeginRows? && k in ActivePayments(s.ledger)
    ensures InSnapshot(Do(c, s, step), k) && Do(c, s, step).ledger == s.ledger && Do(c, s, step).now == s.now
  {
    assert k in step.active;
    var j :| 0 <= j < |step.active| && step.active[j] == k;
    assert Do(c, s, step).phase.rows[j].id == k;
  }

  predicate HasFailed(s: State, k: nat) {
    k < |s.ledger.payments| && s.ledger.payments[k].status == P.Failed
  }

  lemma FailedOneStep(c: Config, s: State, step: Step, k: nat)
    requires Safe(c, s) && Enabled(c, s, step) && HasFailed(s, k)
    ensures HasFailed(Do(c, s, step), k)
  {
    StepMoves(c, s, step);
    assert PaymentMoves(s.ledger, Do(c, s, step).ledger, k);
  }

  lemma LateMissFails(c: Config, s: State, step: Step, k: nat)
    requires Safe(c, s) && Enabled(c, s, step) && Suspected(s, k) && Asks(s, step, k) && step.reply == NotFound
    requires s.now - s.ledger.payments[k].updatedAt >= 600_000
    ensures HasFailed(Do(c, s, step), k)
  {
    OnlyAskingChanges(c, s, step, k);
  }

  /** A failed payment stays failed. */
  lemma {:induction false} FailedStays(c: Config, states: seq<State>, steps: seq<Step>, k: nat, m: nat, n: nat)
    requires IsRun(c, states, steps) && m <= n < |states|
    requires HasFailed(states[m], k)
    ensures HasFailed(states[n], k)
    decreases n
  {
    if m < n {
      FailedStays(c, states, steps, k, m, n - 1);
      SafeAt(c, states, steps, n - 1);
      FailedOneStep(c, states[n - 1], steps[n - 1], k);
    }
  }

  /** A suspect that stays missing is failed, with its invoice, by the first completed pass
      that reads its rows ten minutes after the suspicion or later, whatever goes on
      between the steps of that pass. */
  lemma FailedByTheDeadline(c: Config, states: seq<State>, steps: seq<Step>, k: nat, m: nat, n: nat)
    requires IsRun(c, states, steps) && CompletedPass(states, steps, m, n) && Suspected(states[m], k)
    requires states[m].now - states[m].ledger.payments[k].updatedAt >= 600_000
    requires forall j :: m < j < n && Asks(states[j], steps[j], k) ==> steps[j].reply == NotFound
    ensures HasFailed(states[n + 1], k)
    ensures var i := states[n + 1].ledger.payments[k].invoiceId;
      i < |states[n + 1].ledger.invoices| && states[n + 1].ledger.invoices[i].status == I.Failed
  {
    SafeAt(c, states, steps, m);
    ReadRowsAreInSnapshot(c, states[m], steps[m], k);
    var a := EveryRowIsAsked(c, states, steps, k, m + 1, n);
    SafeAt(c, states, steps, a);
    LateMissFails(c, states[a], steps[a], k);
    FailedStays(c, states, steps, k, a + 1, n + 1);
    SafeAt(c, states, steps, n + 1);
    assert PaymentFits(states[n + 1].ledger, k, c.required);
  }

  // ----- settlement in the ordinary case

  /** Every answer about payment `k` between the steps `m` and `n` finds it deep enough. */
  ghost predicate FoundDeep(c: Config, states: seq<State>, steps: seq<Step>, k: nat, m: nat, n: nat) {
    forall j :: m <= j < n && j < |steps| && j < |states| && Asks(states[j], steps[j], k) ==>
      steps[j].reply.Found? && steps[j].reply.confirmations >= c.required
  }

  predicate Settling(s: State, k: nat) {
    k < |s.ledger.payments| && s.ledger.payments[k].status in {P.Confirming, P.Confirmed, P.Underpaid, P.Overpaid}
  }

  predicate Settled(s: State, k: nat) {
    k < |s.ledger.payments| && s.ledger.payments[k].status in {P.Confirmed, P.Underpaid, P.Overpaid}
  }

  predicate DeepAsk(c: Config, s: State, step: Step, k: nat) {
    Asks(s, step, k) && step.reply.Found? && step.reply.confirmations >= c.required
  }

  lemma SettlingOneStep(c: Config, s: State, step: Step, k: nat)
    requires Safe(c, s) && Enabled(c, s, step) && (Asks(s, step, k) ==> DeepAsk(c, s, step, k))
    ensures Settling(s, k) ==> Settling(Do(c, s, step), k)
    ensures Settled(s, k) ==> Settled(Do(c, s, step), k)
  {
    if Settling(s, k) {
      OnlyAskingChanges(c, s, step, k);
    }
  }

  /** One deep answer takes an active payment to Confirming, or settles it. */
  lemma DeepAskHelps(c: Config, s: State, step: Step, k: nat)
    requires Safe(c, s) && Enabled(c, s, step) && DeepAsk(c, s, step, k) && k < |s.ledger.payments|
    requires k in ActivePayments(s.ledger)
    ensures Settling(Do(c, s, step), k)
    ensures s.ledger.payments[k].status == P.Confirming ==> Settled(Do(c, s, step), k)
  {
    OnlyAskingChanges(c, s, step, k);
  }

  lemma {:induction false} SettlingStays(c: Config, states: seq<State>, steps: seq<Step>, k: nat, m: nat, n: nat)
    requires IsRun(c, states, steps) && m <= n < |states| && FoundDeep(c, states, steps, k, m, n)
    ensures Settling(states[m], k) ==> Settling(states[n], k)
    ensures Settled(states[m], k) ==> Settled(states[n], k)
    decreases n
  {
    if m < n {
      assert FoundDeep(c, states, steps, k, m, n - 1);
      SettlingStays(c, states, steps, k, m, n - 1);
      SafeAt(c, states, steps, n - 1);
      SettlingOneStep(c, states[n - 1], steps[n - 1], k);
    }
  }

  lemma DeepPassHelps(c: Config, states: seq<State>, steps: seq<Step>, k: nat, m: nat, n: nat)
    requires IsRun(c, states, steps) && CompletedPass(states, steps, m, n) && FoundDeep(c, states, steps, k, m, n + 1)
    requires k in ActivePayments(states[m].ledger)
    ensures Settling(states[n + 1], k)
    ensures states[m].ledger.payments[k].status == P.Confirming ==> Settled(states[n + 1], k)
  {
    SafeAt(c, states, steps, m);
    ReadRowsAreInSnapshot(c, states[m], steps[m], k);
    var a := EveryRowIsAsked(c, states, steps, k, m + 1, n);
    SafeAt(c, states, steps, a);
    DeepAskHelps(c, states[a], steps[a], k);
    SettlingStays(c, states, steps, k, a + 1, n + 1);
  }

  /** A payment that the chain shows deep enough whenever it is asked about settles by the
      end of the second completed pass, and its invoice with it, whatever else goes on
      during the passes and between them. */
  lemma SettledByTwoPasses(c: Config, states: seq<State>, steps: seq<Step>, k: nat, m: nat, n: nat, m': nat, n': nat)
    requires IsRun(c, states, steps) && CompletedPass(states, steps, m, n) && CompletedPass(states, steps, m', n') && n < m'
    requires k < |states[m].ledger.payments| && FoundDeep(c, states, steps, k, m, n' + 1)
    requires states[m].ledger.payments[k].status in {P.Detected, P.Confirming, P.ReorgDetected}
    ensures Settled(states[n' + 1], k)
    ensures var i := states[n' + 1].ledger.payments[k].invoiceId;
      i < |states[n' + 1].ledger.invoices| && I.Settled(states[n' + 1].ledger.invoices[i].status)
  {
    assert FoundDeep(c, states, steps, k, m, n + 1) && FoundDeep(c, states, steps, k, n + 1, m');
    assert FoundDeep(c, states, steps, k, m', n' + 1);
    DeepPassHelps(c, states, steps, k, m, n);
    SettlingStays(c, states, steps, k, n + 1, m');
    if states[m'].ledger.payments[k].status == P.Confirming {
      DeepPassHelps(c, states, steps, k, m', n');
    } else {
      SettlingStays(c, states, steps, k, m', n' + 1);
    }
    SafeAt(c, states, steps, n' + 1);
    assert PaymentFits(states[n' + 1].ledger, k, c.required);
  }

  // ----- the cursor

  predicate InScan(r: Range, b: int) {
    r.from <= b <= r.to
  }

  ghost predicate InSomeScan(scans: seq<Range>, b: int) {
    exists i :: 0 <= i < |scans| && InScan(scans[i], b)
  }

  lemma {:induction false} TilesMeans(scans: seq<Range>, cursor: int)
    requires Tiles(scans, cursor)
    ensures cursor >= -1
    ensures forall i :: 0 <= i < |scans| ==> 0 <= scans[i].from <= scans[i].to <= cursor
    ensures forall i, j :: 0 <= i < j < |scans| ==> scans[i].to < scans[j].from
    ensures forall b {:trigger InSomeScan(scans, b)} :: 0 <= b <= cursor <==> InSomeScan(scans, b)
  {
    if scans != [] {
      var n := |scans| - 1;
      var init := scans[..n];
      TilesMeans(init, scans[n].from - 1);
      forall b ensures 0 <= b <= cursor <==> InSomeScan(scans, b) {
        assert InSomeScan(scans, b) <==> InSomeScan(init, b) || InScan(scans[n], b) by {
          if i :| 0 <= i < |init| && InScan(init[i], b) {
            assert InScan(scans[i], b);
          }
          if i :| 0 <= i < |scans| && InScan(scans[i], b) {
            assert i == n || InScan(init[i], b);
          }
        }
      }
    }
  }

  lemma CursorNeverFalls(c: Config, s: State, step: Step)
    requires Safe(c, s) && Enabled(c, s, step)
    ensures s.cursor <= Do(c, s, step).cursor && s.scans <= Do(c, s, step).scans
    ensures s.offered <= Do(c, s, step).offered && s.height <= Do(c, s, step).height
  {
  }

  /** In every reachable state a block is below the cursor exactly when one completed
      scan covers it, only one does, and all its transfers have been offered. */
  lemma NothingSkipped(c: Config, states: seq<State>, steps: seq<Step>, n: nat, b: nat)
    requires IsRun(c, states, steps) && n < |states|
    ensures b <= states[n].cursor <==> InSomeScan(states[n].scans, b)
    ensures forall i, j | 0 <= i < |states[n].scans| && 0 <= j < |states[n].scans| ::
      InScan(states[n].scans[i], b) && InScan(states[n].scans[j], b) ==> i == j
    ensures b <= states[n].cursor ==> forall t :: t in c.chain(b) ==> t in states[n].offered
  {
    SafeAt(c, states, steps, n);
    TilesMeans(states[n].scans, states[n].cursor);
    if b <= states[n].cursor {
      forall t | t in c.chain(b) ensures t in states[n].offered {
        assert OnChain(c, Range(0, states[n].cursor), t);
      }
    }
  }
}
