/** Which invoice a transfer pays, and how the amount compares:
    packages/payments/src/payment-matching.ts and payment-amount.ts. */
module PaymentMatching {
  import opened Common

  /** What the rules look at in an invoice and in a transfer. */
  datatype Candidate = Candidate(id: nat, network: string, token: string, paymentAddress: string, amount: nat, createdAt: int)

  datatype Detected = Detected(network: string, token: string, toAddress: string, amount: nat)

  datatype AmountMatch = Exact | Underpaid | Overpaid

  function EvaluatePaymentAmount(expected: nat, received: nat): AmountMatch {
    if received == expected then Exact else if received < expected then Underpaid else Overpaid
  }

  /** Case folding of addresses, which are ASCII ("0x" and hexadecimal digits). */
  function ToLower(s: string): string {
    seq(|s|, i requires 0 <= i < |s| => if 'A' <= s[i] <= 'Z' then s[i] - 'A' + 'a' else s[i])
  }

  predicate MatchesInvoice(c: Candidate, t: Detected) {
    && c.network == t.network
    && c.token == t.token
    && ToLower(c.paymentAddress) == ToLower(t.toAddress)
  }

  /** The same character, or two cases of one ASCII letter. */
  predicate SameLetter(a: char, b: char) {
    a == b || ('A' <= a <= 'Z' && b as int == a as int + 32) || ('A' <= b <= 'Z' && a as int == b as int + 32)
  }

  /** A transfer pays an invoice of its network and token at its address, in whatever
      case the address is written. */
  lemma MatchesExactlyWhen(c: Candidate, t: Detected)
    ensures MatchesInvoice(c, t) <==>
      && c.network == t.network && c.token == t.token && |c.paymentAddress| == |t.toAddress|
      && forall i :: 0 <= i < |t.toAddress| ==> SameLetter(c.paymentAddress[i], t.toAddress[i])
  {
    var a, b := ToLower(c.paymentAddress), ToLower(t.toAddress);
    if |c.paymentAddress| == |t.toAddress| {
      forall i | 0 <= i < |a| ensures a[i] == b[i] <==> SameLetter(c.paymentAddress[i], t.toAddress[i]) {
      }
    }
  }

  function Filter<T>(s: seq<T>, keep: T -> bool): seq<T> {
    if s == [] then [] else (if keep(s[0]) then [s[0]] else []) + Filter(s[1..], keep)
  }

  /** The first member that satisfies the test. */
  function Find<T>(s: seq<T>, test: T -> bool): Option<T> {
    if s == [] then None else if test(s[0]) then Some(s[0]) else Find(s[1..], test)
  }

  /** Stable insertion by creation time: the head of the sorted copy is the first
      of the earliest, which is all that the caller looks at. */
  function InsertByAge(c: Candidate, sorted: seq<Candidate>): seq<Candidate> {
    if sorted == [] || c.createdAt <= sorted[0].createdAt then [c] + sorted
    else [sorted[0]] + InsertByAge(c, sorted[1..])
  }

  function SortByAge(s: seq<Candidate>): seq<Candidate> {
    if s == [] then [] else InsertByAge(s[0], SortByAge(s[1..]))
  }

  function SelectMatchingInvoice(candidates: seq<Candidate>, t: Detected): Option<Candidate> {
    var matching := Filter(candidates, c => MatchesInvoice(c, t));
    if matching == [] then None else
      var exact := Find(matching, (c: Candidate) => c.amount == t.amount);
      if exact.Some? then exact else
        var oldestFirst := SortByAge(matching);
        if oldestFirst == [] then None else Some(oldestFirst[0])
  }

  lemma {:induction false} FilterMeans<T(!new)>(s: seq<T>, keep: T -> bool)
    ensures forall x :: x in Filter(s, keep) <==> x in s && keep(x)
  {
    if s != [] {
      FilterMeans(s[1..], keep);
      assert s == [s[0]] + s[1..];
    }
  }

  lemma {:induction false} FindMeans<T(!new)>(s: seq<T>, test: T -> bool)
    ensures Find(s, test).Some? ==> Find(s, test).value in s && test(Find(s, test).value)
    ensures Find(s, test).None? <==> forall x :: x in s ==> !test(x)
  {
    if s != [] {
      FindMeans(s[1..], test);
      assert s == [s[0]] + s[1..];
    }
  }

  /** The sorted copy starts with a member that no other member predates. */
  lemma {:induction false} SortPutsOldestFirst(s: seq<Candidate>)
    requires s != []
    ensures SortByAge(s) != [] && SortByAge(s)[0] in s
    ensures forall c :: c in s ==> SortByAge(s)[0].createdAt <= c.createdAt
  {
    if |s| > 1 {
      SortPutsOldestFirst(s[1..]);
    }
    assert s == [s[0]] + s[1..];
  }

  /** What the choice means: nothing exactly when nothing matches, an exact
      amount whenever one is on offer, otherwise a match no younger than any other. */
  lemma SelectionRule(candidates: seq<Candidate>, t: Detected)
    ensures var r := SelectMatchingInvoice(candidates, t);
      && (r.None? <==> forall c :: c in candidates ==> !MatchesInvoice(c, t))
      && (r.Some? ==>
        && r.value in candidates && MatchesInvoice(r.value, t)
        && ((exists c :: c in candidates && MatchesInvoice(c, t) && c.amount == t.amount) ==>
              r.value.amount == t.amount)
        && (r.value.amount != t.amount ==>
              forall c :: c in candidates && MatchesInvoice(c, t) ==> r.value.createdAt <= c.createdAt))
  {
    var matching := Filter(candidates, c => MatchesInvoice(c, t));
    FilterMeans(candidates, c => MatchesInvoice(c, t));
    if matching != [] {
      FindMeans(matching, (c: Candidate) => c.amount == t.amount);
      SortPutsOldestFirst(matching);
      assert matching[0] in matching;
    }
  }

  /** Position `i` holds the first member that passes the test. */
  ghost predicate FirstAt<T(!new)>(s: seq<T>, i: nat, test: T -> bool) {
    i < |s| && test(s[i]) && forall j :: 0 <= j < i ==> !test(s[j])
  }

  predicate Both<T>(x: T, keep: T -> bool, test: T -> bool) {
    keep(x) && test(x)
  }

  /** Position `k` holds `x`, the first member that passes both tests. */
  ghost predicate FirstBoth<T(!new)>(s: seq<T>, k: nat, keep: T -> bool, test: T -> bool, x: T) {
    k < |s| && s[k] == x && Both(x, keep, test) && forall j :: 0 <= j < k ==> !Both(s[j], keep, test)
  }

  lemma FirstBothShifts<T(!new)>(s: seq<T>, k: nat, keep: T -> bool, test: T -> bool, x: T)
    requires s != [] && !Both(s[0], keep, test) && FirstBoth(s[1..], k, keep, test, x)
    ensures FirstBoth(s, k + 1, keep, test, x)
  {
    assert forall j :: 0 < j < |s| ==> s[j] == s[1..][j - 1];
  }

  lemma FirstAtShifts<T(!new)>(x: T, rest: seq<T>, i: nat, test: T -> bool)
    requires FirstAt([x] + rest, i, test) && i > 0
    ensures !test(x) && FirstAt(rest, i - 1, test) && rest[i - 1] == ([x] + rest)[i]
  {
    var all := [x] + rest;
    assert all[0] == x && forall j :: 0 <= j < |rest| ==> rest[j] == all[j + 1];
  }

  lemma {:induction false} FilterKeepsFirst<T(!new)>(s: seq<T>, keep: T -> bool, test: T -> bool, i: nat) returns (k: nat)
    requires FirstAt(Filter(s, keep), i, test)
    ensures FirstBoth(s, k, keep, test, Filter(s, keep)[i])
  {
    var x, rest := Filter(s, keep)[i], Filter(s[1..], keep);
    if keep(s[0]) && i == 0 {
      k := 0;
    } else {
      if keep(s[0]) {
        FirstAtShifts(s[0], rest, i, test);
      } else {
        assert Filter(s, keep) == rest;
      }
      k := FilterKeepsFirst(s[1..], keep, test, if keep(s[0]) then i - 1 else i);
      FirstBothShifts(s, k, keep, test, x);
      k := k + 1;
    }
  }

  lemma {:induction false} FindIsFirst<T(!new)>(s: seq<T>, test: T -> bool) returns (i: nat)
    requires Find(s, test).Some?
    ensures FirstAt(s, i, test) && s[i] == Find(s, test).value
  {
    if test(s[0]) {
      i := 0;
    } else {
      i := FindIsFirst(s[1..], test);
      i := i + 1;
    }
  }

  function NoYounger(age: int): Candidate -> bool {
    (c: Candidate) => c.createdAt <= age
  }

  /** The sort is stable: its head is the first of the earliest. */
  lemma {:induction false} SortHeadIsFirst(s: seq<Candidate>) returns (i: nat)
    requires s != []
    ensures SortByAge(s) != [] && FirstAt(s, i, NoYounger(SortByAge(s)[0].createdAt)) && s[i] == SortByAge(s)[0]
  {
    i := 0;
    if |s| > 1 && SortByAge(s[1..])[0].createdAt < s[0].createdAt {
      i := SortHeadIsFirst(s[1..]);
      i := i + 1;
    }
  }

  /** Ties go to the row the database returned first, among exact amounts and among
      equally old matches alike. */
  lemma TiesGoToTheFirstRow(candidates: seq<Candidate>, t: Detected) returns (i: nat)
    requires SelectMatchingInvoice(candidates, t).Some?
    ensures i < |candidates| && SelectMatchingInvoice(candidates, t).value == candidates[i]
    ensures candidates[i].amount == t.amount ==> FirstAt(candidates, i, (c: Candidate) => MatchesInvoice(c, t) && c.amount == t.amount)
    ensures candidates[i].amount != t.amount ==>
      FirstAt(candidates, i, (c: Candidate) => MatchesInvoice(c, t) && c.createdAt <= candidates[i].createdAt)
  {
    var matching := Filter(candidates, c => MatchesInvoice(c, t));
    var exact := Find(matching, (c: Candidate) => c.amount == t.amount);
    if exact.Some? {
      var k := FindIsFirst(matching, (c: Candidate) => c.amount == t.amount);
      i := FilterKeepsFirst(candidates, c => MatchesInvoice(c, t), (c: Candidate) => c.amount == t.amount, k);
    } else {
      FindMeans(matching, (c: Candidate) => c.amount == t.amount);
      SortPutsOldestFirst(matching);
      var k := SortHeadIsFirst(matching);
      var age := SortByAge(matching)[0].createdAt;
      i := FilterKeepsFirst(candidates, c => MatchesInvoice(c, t), NoYounger(age), k);
    }
  }

  /** With at most one exact match and no two candidates created at the same
      instant the answer does not depend on the order of the rows. */
  lemma SelectionIgnoresRowOrder(a: seq<Candidate>, b: seq<Candidate>, t: Detected)
    requires multiset(a) == multiset(b)
    requires forall c, d | c in a && d in a && MatchesInvoice(c, t) && MatchesInvoice(d, t) ::
      c.amount == d.amount == t.amount ==> c == d
    requires forall c, d | c in a && d in a :: c.createdAt == d.createdAt ==> c == d
    ensures SelectMatchingInvoice(a, t) == SelectMatchingInvoice(b, t)
  {
    SelectionRule(a, t);
    SelectionRule(b, t);
    assert forall c :: c in a <==> c in multiset(a);
    assert forall c :: c in b <==> c in multiset(b);
  }
}
