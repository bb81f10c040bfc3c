/** The fixed-window limiter: apps/api/src/common/guards/redis-rate-limit.guard.ts.
    INCR and EXPIRE on the first hit are one atomic step of a clocked counter. */
module RateLimit {
  import opened Common

  const WINDOW_MS := 60_000

  datatype Category = Login | Checkout | Global

  datatype KeyBy = Ip | IpEmail

  datatype Limits = Limits(loginPerMinute: nat, checkoutPerMinute: nat, globalPerMinute: nat)

  datatype Resolved = Resolved(limit: nat, windowMs: int, keyBy: KeyBy)

  function ResolveLimit(c: Category, l: Limits): Resolved {
    match c
    case Login => Resolved(l.loginPerMinute, WINDOW_MS, IpEmail)
    case Checkout => Resolved(l.checkoutPerMinute, WINDOW_MS, Ip)
    case Global => Resolved(l.globalPerMinute, WINDOW_MS, Ip)
  }

  /** Each kind of handler has its own allowance, of one minute; logins are counted for
      each address and e-mail address together, everything else for each address. */
  lemma LimitsMean(l: Limits)
    ensures ResolveLimit(Login, l) == Resolved(l.loginPerMinute, 60_000, IpEmail)
    ensures ResolveLimit(Checkout, l) == Resolved(l.checkoutPerMinute, 60_000, Ip)
    ensures ResolveLimit(Global, l) == Resolved(l.globalPerMinute, 60_000, Ip)
  {
  }

  /** The stored counter of one key, with the time at which the store drops it. */
  datatype Counter = Absent | Counter(count: Positive, expiresAt: int)

  type Positive = n: nat | n > 0 witness 1

  predicate Live(c: Counter, now: int) {
    c.Counter? && now < c.expiresAt
  }

  function Hit(c: Counter, now: int): Counter {
    if Live(c, now) then Counter(c.count + 1, c.expiresAt) else Counter(1, now + WINDOW_MS)
  }

  predicate Admitted(c: Counter, now: int, limit: nat) {
    Hit(c, now).count <= limit
  }

  // ----- a history of requests for one key

  ghost predicate Ordered(times: seq<int>) {
    forall i, j :: 0 <= i < j < |times| ==> times[i] <= times[j]
  }

  function CounterAfter(times: seq<int>): Counter {
    if times == [] then Absent else Hit(CounterAfter(times[..|times| - 1]), times[|times| - 1])
  }

  /** Whether request number `i` is let through. */
  predicate Passes(times: seq<int>, i: nat, limit: nat)
    requires i < |times|
  {
    Admitted(CounterAfter(times[..i]), times[i], limit)
  }

  /** Request `i` opens a window: the counter was gone when it came. */
  predicate Opens(times: seq<int>, i: nat)
    requires i < |times|
  {
    !Live(CounterAfter(times[..i]), times[i])
  }

  /** The request that opened the window in which request `i` falls. */
  function Opener(times: seq<int>, i: nat): (o: nat)
    requires i < |times|
    ensures o <= i
  {
    if Opens(times, i) || i == 0 then i else Opener(times, i - 1)
  }

  /** The counter says exactly this: how many requests the current window has seen, and
      that it lasts one minute from the request that opened it, admitted or not. */
  lemma {:induction false} CounterMeans(times: seq<int>, i: nat)
    requires i < |times|
    ensures CounterAfter(times[..i + 1]) == Counter(i - Opener(times, i) + 1, times[Opener(times, i)] + 60_000)
    ensures Opens(times, Opener(times, i))
    ensures forall k :: Opener(times, i) < k <= i ==> !Opens(times, k)
  {
    assert times[..i + 1][..i] == times[..i];
    if i > 0 {
      CounterMeans(times, i - 1);
    }
  }

  /** The first request of a window is admitted, and after it exactly the next
      limit - 1; no request, rejected ones included, moves the end of the window. */
  lemma AdmittedExactly(times: seq<int>, i: nat, limit: nat)
    requires i < |times|
    ensures Passes(times, i, limit) <==> i - Opener(times, i) < limit
    ensures Opens(times, i) && limit > 0 ==> Passes(times, i, limit)
    ensures times[i] < times[Opener(times, i)] + 60_000
  {
    CounterMeans(times, i);
    assert times[..i + 1][..i] == times[..i];
    if i > 0 {
      CounterMeans(times, i - 1);
    }
  }

  function CountPassed(times: seq<int>, from: nat, to: nat, limit: nat): nat
    requires from <= to <= |times|
    decreases (to)
  {
    if from == to then 0 else CountPassed(times, from, to - 1, limit) + if Passes(times, to - 1, limit) then 1 else 0
  }

  /** Requests of one window: at most `limit` pass. */
  lemma {:induction false} WindowBound(times: seq<int>, from: nat, to: nat, limit: nat)
    requires from < to <= |times| && Opener(times, from) == Opener(times, to - 1)
    ensures CountPassed(times, from, to, limit) <= limit
    ensures CountPassed(times, from, to, limit) <= to - Opener(times, from)
    decreases (to)
  {
    AdmittedExactly(times, to - 1, limit);
    CounterMeans(times, to - 1);
    CounterMeans(times, from);
    if from < to - 1 {
      SameWindow(times, from, to - 1);
      WindowBound(times, from, to - 1, limit);
    } else {
      assert CountPassed(times, from, from, limit) == 0;
    }
  }

  lemma SameWindow(times: seq<int>, from: nat, mid: nat)
    requires from < mid < |times| && Opener(times, from) == Opener(times, mid)
    ensures Opener(times, mid - 1) == Opener(times, from)
  {
    CounterMeans(times, mid);
  }

  lemma {:induction false} CountSplits(times: seq<int>, from: nat, mid: nat, to: nat, limit: nat)
    requires from <= mid <= to <= |times|
    ensures CountPassed(times, from, to, limit) == CountPassed(times, from, mid, limit) + CountPassed(times, mid, to, limit)
    decreases (to)
  {
    if mid < to {
      CountSplits(times, from, mid, to - 1, limit);
    }
  }

  lemma {:induction false} OpenersClimb(times: seq<int>, i: nat, j: nat)
    requires i <= j < |times|
    ensures Opener(times, i) <= Opener(times, j)
    ensures Opener(times, j) <= i ==> Opener(times, i) == Opener(times, j)
    decreases j
  {
    if i < j {
      OpenersClimb(times, i, j - 1);
    }
  }

  /** A later window starts only when the earlier one is over. */
  lemma {:induction false} WindowsApart(times: seq<int>, i: nat, j: nat)
    requires Ordered(times) && i < j < |times| && Opener(times, i) != Opener(times, j)
    ensures times[Opener(times, j)] >= times[Opener(times, i)] + 60_000 > times[i]
    decreases j
  {
    var o := Opener(times, j);
    OpenersClimb(times, i, j);
    CounterMeans(times, j);
    AdmittedExactly(times, i, 0);
    CounterMeans(times, o - 1);
    assert times[..o - 1 + 1] == times[..o];
    if Opener(times, o - 1) != Opener(times, i) {
      WindowsApart(times, i, o - 1);
    }
  }

  /** A request and the next opening but one are more than a window apart. */
  lemma TwoOpeningsApart(times: seq<int>, from: nat, o: nat)
    requires Ordered(times) && from < o < |times| && Opener(times, o) == o
    ensures Opener(times, o - 1) == Opener(times, from) || times[o] - times[from] > WINDOW_MS
  {
    if Opener(times, o - 1) != Opener(times, from) {
      WindowsApart(times, from, o - 1);
      WindowsApart(times, o - 1, o);
    }
  }

  /** In any span of sixty seconds, ends included, at most twice the limit pass. */
  lemma SpanBound(times: seq<int>, from: nat, to: nat, limit: nat)
    requires Ordered(times) && from < to <= |times| && times[to - 1] - times[from] <= 60_000
    ensures CountPassed(times, from, to, limit) <= 2 * limit
  {
    var o := Opener(times, to - 1);
    OpenersClimb(times, from, to - 1);
    if o == Opener(times, from) {
      WindowBound(times, from, to, limit);
    } else {
      CounterMeans(times, to - 1);
      SpanHasTwoWindows(times, from, o, to);
      TwoWindowsBound(times, from, o, to, limit);
    }
  }

  lemma TwoWindowsBound(times: seq<int>, from: nat, o: nat, to: nat, limit: nat)
    requires from < o < to <= |times| && Opener(times, o - 1) == Opener(times, from) && Opener(times, o) == Opener(times, to - 1)
    ensures CountPassed(times, from, to, limit) <= 2 * limit
  {
    CountSplits(times, from, o, to, limit);
    WindowBound(times, o, to, limit);
    WindowBound(times, from, o, limit);
  }

  lemma SpanHasTwoWindows(times: seq<int>, from: nat, o: nat, to: nat)
    requires Ordered(times) && from < o < to <= |times| && times[to - 1] - times[from] <= WINDOW_MS
    requires Opens(times, o)
    ensures Opener(times, o - 1) == Opener(times, from) && Opener(times, o) == o
  {
    assert times[o] <= times[to - 1];
    TwoOpeningsApart(times, from, o);
  }

  // ----- the guard

  datatype Key = Key(category: Category, url: string, identity: string)

  /** `lower` folds the case of an e-mail address. */
  function Identity(keyBy: KeyBy, ip: string, email: Option<string>, lower: string -> string): string {
    if keyBy.IpEmail? && email.Some? then ip + ":" + lower(email.value) else ip
  }

  /** With an e-mail address in the body a login is counted under both, in lower case;
      without one, and for every other handler, under the network address alone. */
  lemma IdentityMeans(ip: string, email: string, lower: string -> string)
    ensures Identity(IpEmail, ip, Some(email), lower) == ip + ":" + lower(email)
    ensures Identity(IpEmail, ip, None, lower) == ip
    ensures Identity(Ip, ip, Some(email), lower) == Identity(Ip, ip, None, lower) == ip
  {
  }

  class RedisRateLimitGuard {
    var counters: map<Key, Counter>
    const limits: Limits

    constructor (limits: Limits)
      ensures counters == map[] && this.limits == limits
    {
      counters, this.limits := map[], limits;
    }

    function Stored(k: Key): Counter
      reads this
    {
      if k in counters then counters[k] else Absent
    }

    /** Handlers without a category are not limited. */
    method CanActivate(category: Option<Category>, url: string, ip: string, email: Option<string>,
                       lower: string -> string, now: int)
      returns (ok: bool)
      modifies this
      ensures category.None? ==> ok && counters == old(counters)
      ensures category.Some? ==>
        var r := ResolveLimit(category.value, limits);
        var key := Key(category.value, url, Identity(r.keyBy, ip, email, lower));
        && ok == Admitted(old(Stored(key)), now, r.limit)
        && Stored(key) == Hit(old(Stored(key)), now)
        && forall other :: other != key ==> Stored(other) == old(Stored(other))
    {
      if category.None? {
        return true;
      }
      var r := ResolveLimit(category.value, limits);
      var identity := ip;
      if r.keyBy == IpEmail {
        if email.Some? {
          identity := ip + ":" + lower(email.value);
        }
      }
      var key := Key(category.value, url, identity);
      var stored := Stored(key);
      var count := (if Live(stored, now) then stored.count else 0) + 1;
      var expiresAt := if count == 1 then now + r.windowMs else stored.expiresAt;
      counters := counters[key := Counter(count, expiresAt)];
      return count <= r.limit;
    }
  }
}
