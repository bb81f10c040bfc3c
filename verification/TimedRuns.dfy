/** Runs of a machine whose clock moves only in steps of its own: what a job that acts at
    given times can reach, and how that continues a run. */
module TimedRuns {

  /** Which steps are enabled, what they do, the clock, the state after waiting until a
      time, and the step that waits so long. */
  datatype Machine<!S(!new), !T(!new)> = Machine(
    enabled: (S, T) -> bool, next: (S, T) -> S, now: S -> int, wait: (S, int) -> S, waiting: (S, int) -> T)

  ghost predicate WaitsByStep<S(!new), T(!new)>(m: Machine<S, T>) {
    forall s, at :: m.now(s) <= at ==> m.enabled(s, m.waiting(s, at)) && m.next(s, m.waiting(s, at)) == m.wait(s, at)
  }

  ghost predicate Goes<S(!new), T(!new)>(m: Machine<S, T>, states: seq<S>, steps: seq<T>) {
    && |states| == |steps| + 1
    && forall i {:trigger steps[i]} :: 0 <= i < |steps| ==> m.enabled(states[i], steps[i]) && states[i + 1] == m.next(states[i], steps[i])
  }

  /** Some list of steps leads from `s` to `r`. */
  ghost predicate Reaches<S(!new), T(!new)>(m: Machine<S, T>, s: S, r: S) {
    exists states, steps :: Goes(m, states, steps) && states[0] == s && states[|steps|] == r
  }

  lemma Stays<S(!new), T(!new)>(m: Machine<S, T>, s: S)
    ensures Reaches(m, s, s)
  {
    var states, steps: seq<T> := [s], [];
    assert Goes(m, states, steps);
  }

  lemma OneMore<S(!new), T(!new)>(m: Machine<S, T>, states: seq<S>, steps: seq<T>, step: T)
    requires Goes(m, states, steps) && m.enabled(states[|steps|], step)
    ensures Goes(m, states + [m.next(states[|steps|], step)], steps + [step])
  {
    var states', steps' := states + [m.next(states[|steps|], step)], steps + [step];
    forall i {:trigger steps'[i]} | 0 <= i < |steps'|
      ensures m.enabled(states'[i], steps'[i]) && states'[i + 1] == m.next(states'[i], steps'[i])
    {
      assert i < |steps| ==> steps'[i] == steps[i];
    }
  }

  lemma Takes<S(!new), T(!new)>(m: Machine<S, T>, s: S, mid: S, step: T)
    requires Reaches(m, s, mid) && m.enabled(mid, step)
    ensures Reaches(m, s, m.next(mid, step))
  {
    var states, steps :| Goes(m, states, steps) && states[0] == s && states[|steps|] == mid;
    OneMore(m, states, steps, step);
    var states', steps' := states + [m.next(mid, step)], steps + [step];
    assert Goes(m, states', steps') && states'[0] == s && states'[|steps'|] == m.next(mid, step);
  }

  /** The clock moves on to `at` and then a step is taken. */
  lemma TakesAt<S(!new), T(!new)>(m: Machine<S, T>, s: S, mid: S, at: int, step: T)
    requires Reaches(m, s, mid) && WaitsByStep(m) && m.now(mid) <= at && m.enabled(m.wait(mid, at), step)
    ensures Reaches(m, s, m.next(m.wait(mid, at), step))
  {
    Takes(m, s, mid, m.waiting(mid, at));
    Takes(m, s, m.wait(mid, at), step);
  }

  lemma {:induction false} Joined<S(!new), T(!new)>(m: Machine<S, T>, a: seq<S>, aSteps: seq<T>, b: seq<S>, bSteps: seq<T>)
    returns (states: seq<S>, steps: seq<T>)
    requires Goes(m, a, aSteps) && Goes(m, b, bSteps) && a[|aSteps|] == b[0]
    ensures Goes(m, states, steps) && a <= states && aSteps <= steps && states[|steps|] == b[|bSteps|]
    decreases |bSteps|
  {
    states, steps := a, aSteps;
    if bSteps != [] {
      var n := |bSteps| - 1;
      var init, initSteps := b[..n + 1], bSteps[..n];
      forall i {:trigger initSteps[i]} | 0 <= i < n
        ensures m.enabled(init[i], initSteps[i]) && init[i + 1] == m.next(init[i], initSteps[i])
      {
        assert initSteps[i] == bSteps[i];
      }
      states, steps := Joined(m, a, aSteps, init, initSteps);
      assert m.enabled(b[n], bSteps[n]) && b[n + 1] == m.next(b[n], bSteps[n]);
      OneMore(m, states, steps, bSteps[n]);
      states, steps := states + [b[n + 1]], steps + [bSteps[n]];
    }
  }

  lemma Leads<S(!new), T(!new)>(m: Machine<S, T>, s: S, mid: S, r: S)
    requires Reaches(m, s, mid) && Reaches(m, mid, r)
    ensures Reaches(m, s, r)
  {
    var a, aSteps :| Goes(m, a, aSteps) && a[0] == s && a[|aSteps|] == mid;
    var b, bSteps :| Goes(m, b, bSteps) && b[0] == mid && b[|bSteps|] == r;
    var states, steps := Joined(m, a, aSteps, b, bSteps);
    assert states[0] == a[0];
  }

  /** What can be reached from the last state of a run makes a longer run. */
  lemma GoesOn<S(!new), T(!new)>(m: Machine<S, T>, states: seq<S>, steps: seq<T>, r: S) returns (states': seq<S>, steps': seq<T>)
    requires Goes(m, states, steps) && Reaches(m, states[|steps|], r)
    ensures Goes(m, states', steps') && states <= states' && steps <= steps' && states'[|steps'|] == r
  {
    var b, bSteps :| Goes(m, b, bSteps) && b[0] == states[|steps|] && b[|bSteps|] == r;
    states', steps' := Joined(m, states, steps, b, bSteps);
  }
}
