/** Small vocabulary shared by every component. */
module Common {

  datatype Option<+T> = None | Some(value: T)

  ghost predicate Distinct<T>(s: seq<T>) {
    forall i, j :: 0 <= i < j < |s| ==> s[i] != s[j]
  }

  /** `rows` is an answer to a query whose result set is `result`: every row
      once, in whatever order the database returns them. */
  ghost predicate Lists<T(!new)>(rows: seq<T>, result: set<T>) {
    && Distinct(rows)
    && (forall x :: x in rows <==> x in result)
  }

  lemma DistinctPrefix<T>(s: seq<T>, n: nat)
    requires n <= |s| && Distinct(s)
    ensures Distinct(s[..n])
    ensures n < |s| ==> s[n] !in s[..n]
  {
  }

  ghost function Members<T>(s: seq<T>): set<T> {
    set x | x in s
  }

  /** A duplicate-free list is as long as the set of its members. */
  lemma {:induction false} DistinctSize<T>(s: seq<T>)
    requires Distinct(s)
    ensures |Members(s)| == |s|
  {
    if s != [] {
      var init := s[..|s| - 1];
      DistinctSize(init);
      assert s == init + [s[|s| - 1]];
      assert Members(s) == Members(init) + {s[|s| - 1]};
    } else {
      assert Members(s) == {};
    }
  }
}
