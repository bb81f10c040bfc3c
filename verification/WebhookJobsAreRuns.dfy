/** A dispatch pass and a retry pass that nothing interleaves with are runs of the
    concurrent machine, so what holds in every reachable state of the machine holds of
    the tables that the jobs leave. */
module WebhookJobsAreRuns {
  import opened Common
  import opened WebhookDelivery
  import opened WebhookPasses
  import opened WebhookInterleaving
  import opened TimedRuns

  ghost function WebhookMachine(): Machine<State, Step> {
    Machine((s, t) => Enabled(s, t), (s, t) => if Enabled(s, t) then Do(s, t) else s,
            (s: State) => s.now, (s: State, at) => s.(now := at),
            (s: State, at) => Wait(if at < s.now then 0 else at - s.now))
  }

  ghost predicate Gets(s: State, r: State) {
    Reaches(WebhookMachine(), s, r)
  }

  lemma StepGets(s: State, mid: State, at: int, step: Step)
    requires Gets(s, mid) && mid.now <= at && Enabled(mid.(now := at), step)
    ensures Gets(s, Do(mid.(now := at), step))
  {
    TakesAt(WebhookMachine(), s, mid, at, step);
  }

  lemma RunGoesOn(states: seq<State>, steps: seq<Step>, r: State) returns (states': seq<State>, steps': seq<Step>)
    requires IsRun(states, steps) && Gets(states[|steps|], r)
    ensures IsRun(states', steps') && states <= states' && steps <= steps' && states'[|steps'|] == r
  {
    var m := WebhookMachine();
    forall i {:trigger steps[i]} | 0 <= i < |steps| ensures m.enabled(states[i], steps[i]) && states[i + 1] == m.next(states[i], steps[i]) {
    }
    states', steps' := GoesOn(m, states, steps, r);
    assert states'[0] == states[0];
    forall i | 0 <= i < |steps'| ensures Enabled(states'[i], steps'[i]) && states'[i + 1] == Do(states'[i], steps'[i]) {
      assert m.enabled(states'[i], steps'[i]) && states'[i + 1] == m.next(states'[i], steps'[i]);
    }
  }

  lemma OneBack<T>(done: seq<T>, rest: seq<T>)
    requires done != []
    ensures done[..|done| - 1] + ([done[|done| - 1]] + rest) == done + rest
    ensures done == done[..|done| - 1] + [done[|done| - 1]]
  {
  }

  // ----- dispatch

  /** Dispatcher `d` has the pairs `todo` left; the rest of the state is `s`, with the
      store `store`, no later than `by`. */
  ghost predicate Dispatching(s: State, r: State, store: Store, d: nat, todo: seq<Pair>, latest: int) {
    && d < |s.dispatchers| && r.store == store && r.dispatchers == s.dispatchers[d := Claiming(todo)]
    && r.retrier == s.retrier && |r.log| == |r.store.deliveries| && r.now <= latest
  }

  lemma ClaimStep(s: State, d: nat, p: Pair, rest: seq<Pair>)
    requires d < |s.dispatchers| && s.dispatchers[d] == Claiming([p] + rest)
    ensures Enabled(s, Claim(d))
    ensures Do(s, Claim(d)) ==
      if Claimed(s.store.deliveries, p) then s.(dispatchers := s.dispatchers[d := Claiming(rest)])
      else s.(store := s.store.(deliveries := s.store.deliveries + [NewDelivery(p)]),
              dispatchers := s.dispatchers[d := Sending(|s.store.deliveries|, rest)], log := s.log + [Log(0, 0, None)])
  {
    assert ([p] + rest)[0] == p && ([p] + rest)[1..] == rest;
  }

  lemma SendStep(s: State, d: nat, id: nat, rest: seq<Pair>, success: bool)
    requires d < |s.dispatchers| && s.dispatchers[d] == Sending(id, rest) && id < |s.log|
    ensures Enabled(s, Send(d, success))
    ensures Do(s, Send(d, success))
         == s.(dispatchers := s.dispatchers[d := Recording(id, success, rest)], log := s.log[id := Sent(s.log[id], true)])
  {
  }

  lemma RecordStep(s: State, d: nat, id: nat, rest: seq<Pair>, a: Attempt)
    requires d < |s.dispatchers| && s.dispatchers[d] == Recording(id, a.success, rest) && id < |s.store.deliveries| == |s.log|
    requires Fair(a) && s.now == a.at
    ensures Enabled(s, Record(d, a.random))
    ensures var r := Do(s, Record(d, a.random));
      && r.store == s.store.(deliveries := s.store.deliveries[id := AfterFirst(s.store.deliveries[id], a)])
      && r.dispatchers == s.dispatchers[d := Claiming(rest)] && r.retrier == s.retrier && |r.log| == |s.log| && r.now == s.now
  {
  }

  lemma PairIsSent(s: State, d: nat, p: Pair, rest: seq<Pair>, a: Attempt, s0: State) returns (r: State)
    requires d < |s.dispatchers| && s.dispatchers[d] == Claiming([p] + rest) && |s.log| == |s.store.deliveries|
    requires !Claimed(s.store.deliveries, p) && Fair(a) && s.now <= a.at && Gets(s0, s)
    ensures Gets(s0, r) && Dispatching(s, r, DispatchOne(s.store, p, a), d, rest, a.at)
  {
    var id := |s.store.deliveries|;
    ClaimStep(s, d, p, rest);
    StepGets(s0, s, s.now, Claim(d));
    var s1 := Do(s, Claim(d));
    SendStep(s1, d, id, rest, a.success);
    StepGets(s0, s1, s1.now, Send(d, a.success));
    var s2 := Do(s1, Send(d, a.success));
    RecordStep(s2.(now := a.at), d, id, rest, a);
    StepGets(s0, s2, a.at, Record(d, a.random));
    r := Do(s2.(now := a.at), Record(d, a.random));
    var ds := s.store.deliveries + [NewDelivery(p)];
    assert ds[id := AfterFirst(ds[id], a)] == s.store.deliveries + [AfterFirst(NewDelivery(p), a)];
  }

  lemma PairIsHandled(s: State, d: nat, p: Pair, rest: seq<Pair>, a: Attempt, s0: State) returns (r: State)
    requires d < |s.dispatchers| && s.dispatchers[d] == Claiming([p] + rest) && |s.log| == |s.store.deliveries|
    requires Fair(a) && s.now <= a.at && Gets(s0, s)
    ensures Gets(s0, r) && Dispatching(s, r, DispatchOne(s.store, p, a), d, rest, a.at)
  {
    if Claimed(s.store.deliveries, p) {
      ClaimStep(s, d, p, rest);
      StepGets(s0, s, s.now, Claim(d));
      r := Do(s, Claim(d));
    } else {
      r := PairIsSent(s, d, p, rest, a, s0);
    }
  }

  /** When the result of the last of these pairs is stored. */
  function StoredAt(ps: seq<Pair>, net: Net, start: int): int {
    if ps == [] then start else net(ps[|ps| - 1]).at
  }

  ghost predicate ForwardPairs(ps: seq<Pair>, net: Net, start: int) {
    forall n :: 0 <= n < |ps| ==> StoredAt(ps[..n], net, start) <= net(ps[n]).at && Fair(net(ps[n]))
  }

  lemma ForwardInit(ps: seq<Pair>, net: Net, start: int)
    requires ForwardPairs(ps, net, start) && ps != []
    ensures ForwardPairs(ps[..|ps| - 1], net, start)
    ensures StoredAt(ps[..|ps| - 1], net, start) <= net(ps[|ps| - 1]).at && Fair(net(ps[|ps| - 1]))
  {
    var init := ps[..|ps| - 1];
    forall n | 0 <= n < |init| ensures StoredAt(init[..n], net, start) <= net(init[n]).at && Fair(net(init[n])) {
      assert init[..n] == ps[..n];
    }
  }

  lemma {:induction false} DispatchLoop(s: State, d: nat, done: seq<Pair>, rest: seq<Pair>, net: Net, s0: State) returns (r: State)
    requires d < |s.dispatchers| && s.dispatchers[d] == Claiming(done + rest) && |s.log| == |s.store.deliveries|
    requires ForwardPairs(done, net, s.now) && Gets(s0, s)
    ensures Gets(s0, r)
    ensures Dispatching(s, r, DispatchPairs(s.store, done, net), d, rest, StoredAt(done, net, s.now))
    decreases |done|
  {
    r := s;
    if done == [] {
      assert done + rest == rest;
    } else {
      var init, p := done[..|done| - 1], done[|done| - 1];
      OneBack(done, rest);
      ForwardInit(done, net, s.now);
      r := DispatchLoop(s, d, init, [p] + rest, net, s0);
      r := PairIsHandled(r, d, p, rest, net(p), s0);
    }
  }

  /** The pairs that a batch is fanned out to are there and enabled. */
  lemma PlanIsStartable(s: Store, batch: seq<nat>, fan: Fan, i: nat)
    requires IsBatch(s, batch) && HonestFan(s, fan) && i < |PlanOf(batch, fan)|
    ensures var p := PlanOf(batch, fan)[i];
      && p.eventId < |s.events| && p.endpointId < |s.endpoints| && s.endpoints[p.endpointId].enabled
      && s.endpoints[p.endpointId].organizationId == s.events[p.eventId].organizationId
  {
    var p := PlanOf(batch, fan)[i];
    assert p in PlanOf(batch, fan);
    PlanMembers(batch, fan, p);
    assert p.eventId in Waiting(s) && Lists(fan(p.eventId), EnabledFor(s, p.eventId));
  }

  /** `runWebhookDispatch` continues any run, beside whatever other passes are under way,
      with the tables of the dispatch pass. */
  lemma DispatchIsARun(states: seq<State>, steps: seq<Step>, batch: seq<nat>, fan: Fan, net: Net)
    returns (states': seq<State>, steps': seq<Step>)
    requires IsRun(states, steps) && IsBatch(states[|steps|].store, batch) && HonestFan(states[|steps|].store, fan)
    requires ForwardPairs(PlanOf(batch, fan), net, states[|steps|].now)
    ensures IsRun(states', steps') && states <= states' && steps <= steps'
    ensures states'[|steps'|].store == DispatchPass(states[|steps|].store, batch, fan, net)
    ensures states'[|steps'|].retrier == states[|steps|].retrier
  {
    var s, ps := states[|steps|], PlanOf(batch, fan);
    RunsAreSafe(states, steps, |steps|);
    forall i | 0 <= i < |ps|
      ensures ps[i].eventId < |s.store.events| && ps[i].endpointId < |s.store.endpoints|
      ensures s.store.endpoints[ps[i].endpointId].enabled
      ensures s.store.endpoints[ps[i].endpointId].organizationId == s.store.events[ps[i].eventId].organizationId
    {
      PlanIsStartable(s.store, batch, fan, i);
    }
    Stays(WebhookMachine(), s);
    StepGets(s, s, s.now, StartDispatch(ps));
    assert ps + [] == ps;
    var r := DispatchLoop(s.(dispatchers := s.dispatchers + [Claiming(ps)]), |s.dispatchers|, ps, [], net, s);
    states', steps' := RunGoesOn(states, steps, r);
  }

  // ----- retry

  ghost predicate RetryingFrom(s: State, r: State, ds: seq<Delivery>, rows: seq<Snapshot>, latest: int) {
    && r.store == s.store.(deliveries := ds) && r.retrier == Retrying(rows)
    && r.dispatchers == s.dispatchers && |r.log| == |s.log| && r.now == latest
  }

  lemma ResendStep(s: State, row: Snapshot, rest: seq<Snapshot>, success: bool)
    requires s.retrier == Retrying([row] + rest) && row.id < |s.log|
    ensures Enabled(s, Resend(success))
    ensures Do(s, Resend(success)) == s.(retrier := Storing(row, success, rest), log := s.log[row.id := Sent(s.log[row.id], false)])
  {
    assert ([row] + rest)[0] == row && ([row] + rest)[1..] == rest;
  }

  lemma SaveStep(s: State, row: Snapshot, rest: seq<Snapshot>, a: Attempt)
    requires s.retrier == Storing(row, a.success, rest) && row.id < |s.store.deliveries| && Fair(a) && s.now == a.at
    ensures Enabled(s, SaveRetry(a.random))
    ensures Do(s, SaveRetry(a.random)) == s.(retrier := Retrying(rest), store := s.store.(deliveries :=
      s.store.deliveries[row.id := AfterRetry(s.store.deliveries[row.id], row.attempt, a)]))
  {
  }

  lemma RowIsRetried(s: State, row: Snapshot, rest: seq<Snapshot>, a: Attempt, s0: State) returns (r: State)
    requires s.retrier == Retrying([row] + rest) && row.id < |s.store.deliveries| == |s.log|
    requires Fair(a) && s.now <= a.at && Gets(s0, s)
    ensures Gets(s0, r)
    ensures RetryingFrom(s, r, s.store.deliveries[row.id := AfterRetry(s.store.deliveries[row.id], row.attempt, a)], rest, a.at)
  {
    ResendStep(s, row, rest, a.success);
    StepGets(s0, s, s.now, Resend(a.success));
    var s1 := Do(s, Resend(a.success));
    SaveStep(s1.(now := a.at), row, rest, a);
    StepGets(s0, s1, a.at, SaveRetry(a.random));
    r := Do(s1.(now := a.at), SaveRetry(a.random));
  }

  function RetriedAt(ids: seq<nat>, net: nat -> Attempt, start: int): int {
    if ids == [] then start else net(ids[|ids| - 1]).at
  }

  ghost predicate ForwardRows(ids: seq<nat>, net: nat -> Attempt, start: int) {
    forall n :: 0 <= n < |ids| ==> RetriedAt(ids[..n], net, start) <= net(ids[n]).at && Fair(net(ids[n]))
  }

  lemma ForwardRowsInit(ids: seq<nat>, net: nat -> Attempt, start: int)
    requires ForwardRows(ids, net, start) && ids != []
    ensures ForwardRows(ids[..|ids| - 1], net, start)
    ensures RetriedAt(ids[..|ids| - 1], net, start) <= net(ids[|ids| - 1]).at && Fair(net(ids[|ids| - 1]))
  {
    var init := ids[..|ids| - 1];
    forall n | 0 <= n < |init| ensures RetriedAt(init[..n], net, start) <= net(init[n]).at && Fair(net(init[n])) {
      assert init[..n] == ids[..n];
    }
  }

  predicate InRange(ds: seq<Delivery>, ids: seq<nat>) {
    forall i :: 0 <= i < |ids| ==> ids[i] < |ds|
  }

  lemma SnapshotsCons(ds: seq<Delivery>, id: nat, rest: seq<nat>)
    requires id < |ds| && InRange(ds, rest)
    ensures InRange(ds, [id] + rest) && Snapshots(ds, [id] + rest) == [Snapshot(id, ds[id].attempt)] + Snapshots(ds, rest)
  {
  }

  lemma RetryRowsSnoc(ds: seq<Delivery>, init: seq<nat>, id: nat, net: nat -> Attempt)
    requires InRange(ds, init) && id < |ds|
    ensures InRange(ds, init + [id])
    ensures var before := RetryRows(ds, init, ds, net);
      RetryRows(ds, init + [id], ds, net) == before[id := AfterRetry(before[id], ds[id].attempt, net(id))]
  {
    assert (init + [id])[..|init|] == init;
  }

  /** The retrier has stored the results of `done` and has `rest` before it. */
  ghost predicate Retried(s: State, r: State, done: seq<nat>, rest: seq<nat>, net: nat -> Attempt)
    requires InRange(s.store.deliveries, done) && InRange(s.store.deliveries, rest)
  {
    RetryingFrom(s, r, RetryRows(s.store.deliveries, done, s.store.deliveries, net),
                 Snapshots(s.store.deliveries, rest), RetriedAt(done, net, s.now))
  }

  lemma OneMoreRetried(s: State, r: State, init: seq<nat>, id: nat, rest: seq<nat>, net: nat -> Attempt, s0: State) returns (r': State)
    requires InRange(s.store.deliveries, init) && id < |s.store.deliveries| && InRange(s.store.deliveries, rest)
    requires InRange(s.store.deliveries, [id] + rest) && Retried(s, r, init, [id] + rest, net)
    requires |s.log| == |s.store.deliveries| && RetriedAt(init, net, s.now) <= net(id).at && Fair(net(id)) && Gets(s0, r)
    ensures InRange(s.store.deliveries, init + [id])
    ensures Gets(s0, r') && Retried(s, r', init + [id], rest, net)
  {
    var ds := s.store.deliveries;
    SnapshotsCons(ds, id, rest);
    RetryRowsSnoc(ds, init, id, net);
    r' := RowIsRetried(r, Snapshot(id, ds[id].attempt), Snapshots(ds, rest), net(id), s0);
  }

  lemma {:induction false} RetryLoop(s: State, done: seq<nat>, rest: seq<nat>, net: nat -> Attempt, s0: State) returns (r: State)
    requires |s.log| == |s.store.deliveries| && InRange(s.store.deliveries, done + rest)
    requires InRange(s.store.deliveries, done) && InRange(s.store.deliveries, rest)
    requires s.retrier == Retrying(Snapshots(s.store.deliveries, done + rest)) && ForwardRows(done, net, s.now) && Gets(s0, s)
    ensures Gets(s0, r) && Retried(s, r, done, rest, net)
    decreases |done|
  {
    if done == [] {
      assert done + rest == rest;
      r := s;
    } else {
      var init, id := done[..|done| - 1], done[|done| - 1];
      OneBack(done, rest);
      ForwardRowsInit(done, net, s.now);
      SnapshotsCons(s.store.deliveries, id, rest);
      r := RetryLoop(s, init, [id] + rest, net, s0);
      r := OneMoreRetried(s, r, init, id, rest, net, s0);
    }
  }

  lemma RetryStarts(s: State, due: seq<nat>)
    requires s.retrier.Idle? && IsDueBatch(s.store.deliveries, s.now, due)
    ensures Enabled(s, StartRetry(due)) && InRange(s.store.deliveries, due)
    ensures Do(s, StartRetry(due)) == s.(retrier := Retrying(Snapshots(s.store.deliveries, due)))
  {
  }

  lemma RetryEnds(s: State, s0: State)
    requires Gets(s0, s) && s.retrier == Retrying([])
    ensures Gets(s0, s.(retrier := WebhookInterleaving.Idle))
  {
    StepGets(s0, s, s.now, EndRetry);
  }

  /** `runWebhookRetry` continues any run in which no other retry is under way, with the
      tables of the retry pass, and leaves the retrier idle. */
  lemma RetryIsARun(states: seq<State>, steps: seq<Step>, due: seq<nat>, net: nat -> Attempt)
    returns (states': seq<State>, steps': seq<Step>)
    requires IsRun(states, steps) && states[|steps|].retrier.Idle?
    requires IsDueBatch(states[|steps|].store.deliveries, states[|steps|].now, due) && ForwardRows(due, net, states[|steps|].now)
    ensures IsRun(states', steps') && states <= states' && steps <= steps'
    ensures states'[|steps'|].store
         == states[|steps|].store.(deliveries := RetryRows(states[|steps|].store.deliveries, due, states[|steps|].store.deliveries, net))
    ensures states'[|steps'|].retrier.Idle? && states'[|steps'|].dispatchers == states[|steps|].dispatchers
  {
    var s := states[|steps|];
    RunsAreSafe(states, steps, |steps|);
    Stays(WebhookMachine(), s);
    RetryStarts(s, due);
    StepGets(s, s, s.now, StartRetry(due));
    assert due + [] == due;
    var r := RetryLoop(s.(retrier := Retrying(Snapshots(s.store.deliveries, due))), due, [], net, s);
    RetryEnds(r, s);
    states', steps' := RunGoesOn(states, steps, r.(retrier := WebhookInterleaving.Idle));
  }
}
