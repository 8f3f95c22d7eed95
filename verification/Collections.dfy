/** Lists without repeats, and the counting argument behind several of the contracts. */
module Collections {

  ghost predicate Distinct<T>(s: seq<T>) {
    forall i, j :: 0 <= i < j < |s| ==> s[i] != s[j]
  }

  lemma {:induction false} DistinctStep<T>(s: seq<T>, x: T)
    ensures Distinct(s + [x]) <==> Distinct(s) && x !in s
  {
    assert forall j :: 0 <= j < |s| ==> (s + [x])[j] == s[j];
    assert (s + [x])[|s|] == x;
  }

  lemma {:induction false} EmptyIsDistinct<T>(s: seq<T>)
    requires s == []
    ensures Distinct(s)
  {
  }

  /** `new Set(s).size` equals the length of the list exactly when nothing in it repeats. */
  lemma {:induction false} SetSize<T>(s: seq<T>)
    ensures |set x | x in s| <= |s|
    ensures |set x | x in s| == |s| <==> Distinct(s)
  {
    hide Distinct;
    if s == [] {
      EmptyIsDistinct(s);
    } else {
      var n := |s| - 1;
      var init := s[..n];
      SetSize(init);
      DistinctStep(init, s[n]);
      assert s == init + [s[n]];
      assert (set x | x in s) == (set x | x in init) + {s[n]};
    }
  }

  lemma {:induction false} SubsetOfSameSize<T>(a: set<T>, b: set<T>)
    requires a <= b && |a| >= |b|
    ensures a == b
  {
    assert b == a + (b - a);
  }

  lemma {:induction false} DistinctCounts<T>(s: seq<T>, x: T)
    requires Distinct(s)
    ensures multiset(s)[x] == if x in s then 1 else 0
  {
    if s != [] {
      var n := |s| - 1;
      assert s == s[..n] + [s[n]];
      DistinctStep(s[..n], s[n]);
      DistinctCounts(s[..n], x);
    }
  }

  /** As many distinct elements as there are places use every place up. */
  lemma {:induction false} Pigeonhole<T>(xs: seq<T>, ys: seq<T>)
    requires Distinct(xs) && |xs| >= |ys|
    requires forall x :: x in xs ==> x in ys
    ensures Distinct(ys) && multiset(xs) == multiset(ys)
  {
    SetSize(xs);
    SetSize(ys);
    var a, b := set x | x in xs, set y | y in ys;
    SubsetOfSameSize(a, b);
    forall x ensures multiset(xs)[x] == multiset(ys)[x] {
      DistinctCounts(xs, x);
      DistinctCounts(ys, x);
      assert x in a <==> x in b;
    }
  }
}
