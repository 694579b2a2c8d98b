/** How many different elements a sequence has. */
module Counting {
  ghost predicate Distinct<T>(q: seq<T>) { forall i, j :: 0 <= i < j < |q| ==> q[i] != q[j] }

  function Members<T(==)>(q: seq<T>): set<T> { set x | x in q }

  lemma {:induction false} DistinctCount<T>(q: seq<T>)
    requires Distinct(q)
    ensures |Members(q)| == |q|
  {
    if q != [] {
      var init := q[..|q| - 1];
      DistinctCount(init);
      assert q == init + [q[|q| - 1]] && Members(q) == Members(init) + {q[|q| - 1]};
    }
  }

  lemma {:induction false} CountAtMost<T>(q: seq<T>)
    ensures |Members(q)| <= |q|
  {
    if q != [] {
      var init := q[..|q| - 1];
      CountAtMost(init);
      assert q == init + [q[|q| - 1]] && Members(q) == Members(init) + {q[|q| - 1]};
    }
  }

  lemma {:induction false} SubsetCount<T>(s: set<T>, t: set<T>)
    requires s <= t
    ensures |s| <= |t|
  {
    if s != {} {
      var x :| x in s;
      SubsetCount(s - {x}, t - {x});
    }
  }

  /** Different elements of `q` are no more than `q` is long. */
  lemma NoMoreThanAll<T>(p: seq<T>, q: seq<T>)
    requires Distinct(p) && forall x :: x in p ==> x in q
    ensures |p| <= |q|
  {
    DistinctCount(p);
    CountAtMost(q);
    SubsetCount(Members(p), Members(q));
  }
}
