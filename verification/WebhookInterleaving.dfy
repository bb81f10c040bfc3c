/** Any number of dispatch passes and one retry worker, interleaved one database or
    HTTP operation at a time. No process crashes; claims may fail for any reason. */
module WebhookInterleaving {
  import opened Common
  import opened RetrySchedule
  import opened WebhookDelivery

  /** Where a dispatch pass is; `id` is the row it claimed last. */
  datatype Dispatcher =
    | Claiming(todo: seq<Pair>)
    | Sending(id: nat, todo: seq<Pair>)
    | Recording(id: nat, success: bool, todo: seq<Pair>)

  /** A row as the retry query returned it. */
  datatype Snapshot = Snapshot(id: nat, attempt: nat)

  datatype Retrier =
    | Idle
    | Retrying(rows: seq<Snapshot>)
    | Storing(row: Snapshot, success: bool, rows: seq<Snapshot>)

  /** History of one row: HTTP sends by dispatchers, by anyone, and its first failure. */
  datatype Log = Log(firstSends: nat, sends: nat, firstFailedAt: Option<int>)

  datatype State = State(store: Store, now: int, dispatchers: seq<Dispatcher>, retrier: Retrier, log: seq<Log>)

  datatype Step =
    | AddEvent(event: Event)
    | PutEndpoint(id: nat, endpoint: Endpoint)
    | Wait(ms: nat)
    | StartDispatch(todo: seq<Pair>)
    | Claim(d: nat)
    | ClaimFails(d: nat)
    | Send(d: nat, success: bool)
    | Record(d: nat, random: real)
    | StartRetry(rows: seq<nat>)
    | Resend(success: bool)
    | SaveRetry(random: real)
    | EndRetry

  ghost predicate Enabled(s: State, step: Step) {
    match step
    case AddEvent(_) => true
    case PutEndpoint(id, _) => id <= |s.store.endpoints|
    case Wait(_) => true
    case StartDispatch(todo) =>
      forall i :: 0 <= i < |todo| ==>
        && todo[i].eventId < |s.store.events| && todo[i].endpointId < |s.store.endpoints|
        && s.store.endpoints[todo[i].endpointId].enabled
        && s.store.endpoints[todo[i].endpointId].organizationId == s.store.events[todo[i].eventId].organizationId
    case Claim(d) => d < |s.dispatchers| && s.dispatchers[d].Claiming? && s.dispatchers[d].todo != []
    case ClaimFails(d) => d < |s.dispatchers| && s.dispatchers[d].Claiming? && s.dispatchers[d].todo != []
    case Send(d, _) => d < |s.dispatchers| && s.dispatchers[d].Sending? && s.dispatchers[d].id < |s.log|
    case Record(d, random) =>
      && d < |s.dispatchers| && s.dispatchers[d].Recording? && s.dispatchers[d].id < |s.store.deliveries| == |s.log|
      && 0.0 <= random < 1.0
    case StartRetry(rows) =>
      && s.retrier.Idle? && Distinct(rows) && |rows| <= BATCH_SIZE
      && forall i :: 0 <= i < |rows| ==> rows[i] < |s.store.deliveries| && Due(s.store.deliveries[rows[i]], s.now)
    case Resend(_) => s.retrier.Retrying? && s.retrier.rows != [] && s.retrier.rows[0].id < |s.log|
    case SaveRetry(random) => s.retrier.Storing? && s.retrier.row.id < |s.store.deliveries| && 0.0 <= random < 1.0
    case EndRetry => s.retrier == Retrying([])
  }

  function Snapshots(ds: seq<Delivery>, ids: seq<nat>): (r: seq<Snapshot>)
    requires forall i :: 0 <= i < |ids| ==> ids[i] < |ds|
    ensures |r| == |ids| && forall i :: 0 <= i < |ids| ==> r[i] == Snapshot(ids[i], ds[ids[i]].attempt)
  {
    seq(|ids|, i requires 0 <= i < |ids| => Snapshot(ids[i], ds[ids[i]].attempt))
  }

  function Sent(l: Log, first: bool): Log {
    l.(sends := l.sends + 1, firstSends := l.firstSends + if first then 1 else 0)
  }

  ghost function Do(s: State, step: Step): State
    requires Enabled(s, step)
  {
    match step
    case AddEvent(e) => s.(store := s.store.(events := s.store.events + [e]))
    case PutEndpoint(id, p) =>
      s.(store := s.store.(endpoints := if id < |s.store.endpoints| then s.store.endpoints[id := p] else s.store.endpoints + [p]))
    case Wait(ms) => s.(now := s.now + ms)
    case StartDispatch(todo) => s.(dispatchers := s.dispatchers + [Claiming(todo)])
    case Claim(d) =>
      var p, rest := s.dispatchers[d].todo[0], s.dispatchers[d].todo[1..];
      if Claimed(s.store.deliveries, p) then s.(dispatchers := s.dispatchers[d := Claiming(rest)])
      else
        s.(store := s.store.(deliveries := s.store.deliveries + [NewDelivery(p)]),
           dispatchers := s.dispatchers[d := Sending(|s.store.deliveries|, rest)],
           log := s.log + [Log(0, 0, None)])
    case ClaimFails(d) => s.(dispatchers := s.dispatchers[d := Claiming(s.dispatchers[d].todo[1..])])
    case Send(d, success) =>
      var id := s.dispatchers[d].id;
      s.(dispatchers := s.dispatchers[d := Recording(id, success, s.dispatchers[d].todo)],
         log := s.log[id := Sent(s.log[id], true)])
    case Record(d, random) =>
      var id, success := s.dispatchers[d].id, s.dispatchers[d].success;
      s.(store := s.store.(deliveries :=
           s.store.deliveries[id := AfterFirst(s.store.deliveries[id], Attempt(success, s.now, random))]),
         dispatchers := s.dispatchers[d := Claiming(s.dispatchers[d].todo)],
         log := if success then s.log else s.log[id := s.log[id].(firstFailedAt := Some(s.now))])
    case StartRetry(rows) => s.(retrier := Retrying(Snapshots(s.store.deliveries, rows)))
    case Resend(success) =>
      var row := s.retrier.rows[0];
      s.(retrier := Storing(row, success, s.retrier.rows[1..]), log := s.log[row.id := Sent(s.log[row.id], false)])
    case SaveRetry(random) =>
      var row := s.retrier.row;
      s.(store := s.store.(deliveries := s.store.deliveries[row.id :=
           AfterRetry(s.store.deliveries[row.id], row.attempt, Attempt(s.retrier.success, s.now, random))]),
         retrier := Retrying(s.retrier.rows))
    case EndRetry => s.(retrier := Idle)
  }

  // ----- the invariant

  /** One row against its history; `inFlight` says that the retry job has sent it and
      not yet stored the result. */
  predicate RowFits(d: Delivery, l: Log, now: int, inFlight: bool) {
    && l.firstSends <= 1 && (l.sends > 0 <==> l.firstSends == 1)
    && match d.status
       case Pending => d.attempt == 1 && l.sends <= 1 && !inFlight
       case Failed =>
         && 1 <= d.attempt <= 6
         && l.sends == d.attempt + (if inFlight then 1 else 0)
         && l.firstFailedAt.Some? && d.nextRetryAt.Some?
         && d.nextRetryAt.value >= l.firstFailedAt.value + LeastElapsed(d.attempt + 1)
         && (inFlight ==> d.nextRetryAt.value <= now)
       case Succeeded => 1 <= d.attempt <= 7 && l.sends == d.attempt && d.deliveredAt.Some? && !inFlight
       case Exhausted =>
         && d.attempt == 7 && l.sends == 7 && d.nextRetryAt.None? && !inFlight
         && l.firstFailedAt.Some? && now >= l.firstFailedAt.value + LeastElapsed(7)
  }

  predicate InFlight(r: Retrier, id: nat) {
    r.Storing? && r.row.id == id
  }

  ghost predicate RowsFit(s: State) {
    && |s.log| == |s.store.deliveries|
    && forall id :: 0 <= id < |s.log| ==> RowFits(s.store.deliveries[id], s.log[id], s.now, InFlight(s.retrier, id))
  }

  /** A dispatcher's row is its own, pending, and sent exactly when it says so. */
  ghost predicate DispatchersFit(s: State)
    requires |s.log| == |s.store.deliveries|
  {
    && (forall d :: 0 <= d < |s.dispatchers| && !s.dispatchers[d].Claiming? ==>
          && s.dispatchers[d].id < |s.log|
          && s.store.deliveries[s.dispatchers[d].id].status == Pending
          && s.log[s.dispatchers[d].id].sends == if s.dispatchers[d].Recording? then 1 else 0)
    && (forall c, d :: 0 <= c < d < |s.dispatchers| && !s.dispatchers[c].Claiming? && !s.dispatchers[d].Claiming? ==>
          s.dispatchers[c].id != s.dispatchers[d].id)
  }

  predicate SnapshotFits(s: State, row: Snapshot) {
    && row.id < |s.store.deliveries|
    && s.store.deliveries[row.id].status == Failed && s.store.deliveries[row.id].attempt == row.attempt
    && Due(s.store.deliveries[row.id], s.now)
  }

  ghost predicate RetrierFits(s: State) {
    match s.retrier
    case Idle => true
    case Retrying(rows) =>
      && (forall i, j :: 0 <= i < j < |rows| ==> rows[i].id != rows[j].id)
      && (forall i :: 0 <= i < |rows| ==> SnapshotFits(s, rows[i]))
    case Storing(row, _, rows) =>
      && SnapshotFits(s, row)
      && (forall i, j :: 0 <= i < j < |rows| ==> rows[i].id != rows[j].id)
      && (forall i :: 0 <= i < |rows| ==> SnapshotFits(s, rows[i]) && rows[i].id != row.id)
  }

  ghost predicate Safe(s: State) {
    && OneRowPerPair(s.store.deliveries)
    && RowsFit(s)
    && DispatchersFit(s)
    && RetrierFits(s)
  }

  // ----- one step

  lemma FirstResultFits(d: Delivery, l: Log, success: bool, now: int, random: real)
    requires RowFits(d, l, now, false) && d.status == Pending && l.sends == 1 && 0.0 <= random < 1.0
    ensures RowFits(AfterFirst(d, Attempt(success, now, random)),
                    if success then l else l.(firstFailedAt := Some(now)), now, false)
    ensures AfterFirst(d, Attempt(success, now, random)).status != Pending
  {
    DelayWithinAFifth(1, random);
    assert LeastElapsed(2) == LeastElapsed(1) + LeastDelay(1);
  }

  lemma RetryResultFits(d: Delivery, l: Log, success: bool, now: int, random: real)
    requires RowFits(d, l, now, true) && d.status == Failed && 0.0 <= random < 1.0
    ensures RowFits(AfterRetry(d, d.attempt, Attempt(success, now, random)), l, now, false)
    ensures AfterRetry(d, d.attempt, Attempt(success, now, random)).status != Pending
  {
    DelayWithinAFifth(d.attempt + 1, random);
    if d.attempt < 6 {
      assert LeastElapsed(d.attempt + 2) == LeastElapsed(d.attempt + 1) + LeastDelay(d.attempt + 1);
    }
  }

  lemma ClaimKeepsPairs(ds: seq<Delivery>, p: Pair)
    requires OneRowPerPair(ds) && !Claimed(ds, p)
    ensures OneRowPerPair(ds + [NewDelivery(p)])
  {
    forall k | 0 <= k < |ds| ensures Pair(ds[k].eventId, ds[k].endpointId) != p {
      assert !IsFor(ds[k], p);
    }
  }

  lemma ClaimSafe(s: State, step: Step)
    requires Safe(s) && Enabled(s, step) && step.Claim?
    ensures Safe(Do(s, step))
  {
    var p := s.dispatchers[step.d].todo[0];
    if !Claimed(s.store.deliveries, p) {
      ClaimKeepsPairs(s.store.deliveries, p);
    }
  }

  lemma SendSafe(s: State, step: Step)
    requires Safe(s) && Enabled(s, step) && step.Send?
    ensures Safe(Do(s, step))
  {
    var id := s.dispatchers[step.d].id;
    assert RowFits(s.store.deliveries[id], s.log[id], s.now, InFlight(s.retrier, id));
  }

  lemma RecordKeepsRows(s: State, step: Step)
    requires Safe(s) && Enabled(s, step) && step.Record?
    ensures RowsFit(Do(s, step)) && OneRowPerPair(Do(s, step).store.deliveries)
    ensures Do(s, step).store.deliveries[s.dispatchers[step.d].id].status != Pending
  {
    var id := s.dispatchers[step.d].id;
    assert RowFits(s.store.deliveries[id], s.log[id], s.now, InFlight(s.retrier, id));
    FirstResultFits(s.store.deliveries[id], s.log[id], s.dispatchers[step.d].success, s.now, step.random);
  }

  lemma RecordSafe(s: State, step: Step)
    requires Safe(s) && Enabled(s, step) && step.Record?
    ensures Safe(Do(s, step))
  {
    RecordKeepsRows(s, step);
  }

  lemma ResendSafe(s: State, step: Step)
    requires Safe(s) && Enabled(s, step) && step.Resend?
    ensures Safe(Do(s, step))
  {
    var row := s.retrier.rows[0];
    assert RowFits(s.store.deliveries[row.id], s.log[row.id], s.now, InFlight(s.retrier, row.id));
    assert SnapshotFits(s, row);
  }

  lemma SaveRetryKeepsRows(s: State, step: Step)
    requires step.SaveRetry? && Enabled(s, step)
    requires RowsFit(s) && SnapshotFits(s, s.retrier.row) && OneRowPerPair(s.store.deliveries)
    ensures RowsFit(Do(s, step)) && OneRowPerPair(Do(s, step).store.deliveries)
  {
    var row := s.retrier.row;
    assert RowFits(s.store.deliveries[row.id], s.log[row.id], s.now, InFlight(s.retrier, row.id));
    RetryResultFits(s.store.deliveries[row.id], s.log[row.id], s.retrier.success, s.now, step.random);
  }

  lemma SaveRetrySafe(s: State, step: Step)
    requires Safe(s) && Enabled(s, step) && step.SaveRetry?
    ensures Safe(Do(s, step))
  {
    SaveRetryKeepsRows(s, step);
  }

  lemma StartRetrySafe(s: State, step: Step)
    requires Safe(s) && Enabled(s, step) && step.StartRetry?
    ensures Safe(Do(s, step))
  {
  }

  lemma WaitSafe(s: State, step: Step)
    requires Safe(s) && Enabled(s, step) && step.Wait?
    ensures Safe(Do(s, step))
  {
    var s' := Do(s, step);
    forall id | 0 <= id < |s.log| ensures RowFits(s'.store.deliveries[id], s'.log[id], s'.now, InFlight(s'.retrier, id)) {
      assert RowFits(s.store.deliveries[id], s.log[id], s.now, InFlight(s.retrier, id));
    }
  }

  lemma QuietStepSafe(s: State, step: Step)
    requires Safe(s) && Enabled(s, step)
    requires step.AddEvent? || step.PutEndpoint? || step.StartDispatch? || step.ClaimFails? || step.EndRetry?
    ensures Safe(Do(s, step))
  {
  }

  lemma StepSafe(s: State, step: Step)
    requires Safe(s) && Enabled(s, step)
    ensures Safe(Do(s, step))
  {
    match step
    case Claim(_) => ClaimSafe(s, step);
    case Send(_, _) => SendSafe(s, step);
    case Record(_, _) => RecordSafe(s, step);
    case StartRetry(_) => StartRetrySafe(s, step);
    case Resend(_) => ResendSafe(s, step);
    case SaveRetry(_) => SaveRetrySafe(s, step);
    case Wait(_) => WaitSafe(s, step);
    case _ => QuietStepSafe(s, step);
  }

  // ----- whole runs

  ghost predicate IsRun(states: seq<State>, steps: seq<Step>) {
    && |states| == |steps| + 1
    && states[0].store.deliveries == [] && states[0].dispatchers == [] && states[0].retrier == Idle && states[0].log == []
    && forall i :: 0 <= i < |steps| ==> Enabled(states[i], steps[i]) && states[i + 1] == Do(states[i], steps[i])
  }

  lemma {:induction false} RunsAreSafe(states: seq<State>, steps: seq<Step>, n: nat)
    requires IsRun(states, steps) && n < |states|
    ensures Safe(states[n])
    decreases n
  {
    if n > 0 {
      RunsAreSafe(states, steps, n - 1);
      StepSafe(states[n - 1], steps[n - 1]);
    }
  }

  /** What a merchant can rely on in every reachable state, whatever the interleaving:
      one row and at most one first send for each pair, at most seven sends in all,
      as many completed sends as the row counts attempts, and no giving up sooner than
      90,288 seconds after the first failure. */
  lemma DeliveryContract(states: seq<State>, steps: seq<Step>, n: nat, id: nat)
    requires IsRun(states, steps) && n < |states| && id < |states[n].store.deliveries|
    ensures |states[n].log| == |states[n].store.deliveries|
    ensures var s := states[n];
      var d, l := s.store.deliveries[id], s.log[id];
      && (forall k :: 0 <= k < |s.store.deliveries| && IsFor(s.store.deliveries[k], Pair(d.eventId, d.endpointId)) ==> k == id)
      && l.firstSends <= 1 && l.sends <= 7
      && (d.status == Failed && !InFlight(s.retrier, id) ==> l.sends == d.attempt)
      && (d.status in {Succeeded, Exhausted} ==> l.sends == d.attempt)
      && (d.status == Exhausted ==> l.sends == 7 && l.firstFailedAt.Some? && s.now - l.firstFailedAt.value >= 90_288_000)
  {
    RunsAreSafe(states, steps, n);
    FullScheduleTakesADay();
    var s := states[n];
    assert RowFits(s.store.deliveries[id], s.log[id], s.now, InFlight(s.retrier, id));
    forall k | 0 <= k < |s.store.deliveries| && IsFor(s.store.deliveries[k], Pair(s.store.deliveries[id].eventId, s.store.deliveries[id].endpointId))
      ensures k == id
    {
    }
  }

  predicate SettledAt(s: State, id: nat) {
    id < |s.store.deliveries| == |s.log| && s.store.deliveries[id].status in {Succeeded, Exhausted}
  }

  lemma SettledStepsBy(s: State, step: Step, id: nat)
    requires Safe(s) && Enabled(s, step) && SettledAt(s, id)
    ensures SettledAt(Do(s, step), id)
    ensures Do(s, step).store.deliveries[id] == s.store.deliveries[id] && Do(s, step).log[id] == s.log[id]
  {
  }

  /** Once a delivery has succeeded or is exhausted nothing is sent for it again. */
  lemma {:induction false} SettledIsFinal(states: seq<State>, steps: seq<Step>, m: nat, n: nat, id: nat)
    requires IsRun(states, steps) && m <= n < |states| && SettledAt(states[m], id)
    ensures SettledAt(states[n], id)
    ensures states[n].store.deliveries[id] == states[m].store.deliveries[id] && states[n].log[id] == states[m].log[id]
    decreases n
  {
    if m < n {
      SettledIsFinal(states, steps, m, n - 1, id);
      RunsAreSafe(states, steps, n - 1);
      SettledStepsBy(states[n - 1], steps[n - 1], id);
    }
  }
}
