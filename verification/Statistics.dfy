/** The arithmetic of the optimization evidence, on exact reals: the two tolerance tests, the
    median, the maximum, and the first of a sorted list of texts. */
module Statistics {
  import opened Text

  // ----- Tolerances -----

  const TOLERANCE := 0.000000001

  function Abs(x: real): real {
    if x < 0.0 then -x else x
  }

  function MaxReal(x: real, y: real): real {
    if x < y then y else x
  }

  /** closeEnough of the TypeScript side. */
  predicate CloseEnough(left: real, right: real) {
    Abs(left - right) <= TOLERANCE * MaxReal(1.0, MaxReal(Abs(left), Abs(right)))
  }

  /** math.isclose(a, b, rel_tol=1e-9, abs_tol=1e-9). */
  predicate IsClose(a: real, b: real) {
    || a == b
    || Abs(b - a) <= Abs(TOLERANCE * b)
    || Abs(b - a) <= Abs(TOLERANCE * a)
    || Abs(b - a) <= TOLERANCE
  }

  lemma {:induction false} TolerancesAgree(a: real, b: real)
    ensures CloseEnough(a, b) <==> IsClose(a, b)
    ensures CloseEnough(a, b) <==> CloseEnough(b, a)
  {
    assert Abs(TOLERANCE * a) == TOLERANCE * Abs(a);
    assert Abs(TOLERANCE * b) == TOLERANCE * Abs(b);
  }

  // ----- Median and maximum -----

  function InsertReal(x: real, sorted: seq<real>): seq<real> {
    if sorted == [] then [x]
    else if x <= sorted[0] then [x] + sorted
    else [sorted[0]] + InsertReal(x, sorted[1..])
  }

  function SortReals(values: seq<real>): seq<real> {
    if values == [] then [] else InsertReal(values[0], SortReals(values[1..]))
  }

  ghost predicate Sorted(s: seq<real>) {
    forall i, j :: 0 <= i < j < |s| ==> s[i] <= s[j]
  }

  lemma {:induction false} InsertRealMembers(x: real, s: seq<real>)
    ensures multiset(InsertReal(x, s)) == multiset{x} + multiset(s)
  {
    if s != [] && x > s[0] {
      InsertRealMembers(x, s[1..]);
      assert s == [s[0]] + s[1..];
    }
  }

  lemma {:induction false} InsertRealSorts(x: real, s: seq<real>)
    requires Sorted(s)
    ensures Sorted(InsertReal(x, s))
    ensures forall i :: 0 <= i < |InsertReal(x, s)| ==> InsertReal(x, s)[i] == x || InsertReal(x, s)[i] in s
  {
    if s != [] && x > s[0] {
      InsertRealSorts(x, s[1..]);
      var rest := InsertReal(x, s[1..]);
      forall i | 0 <= i < |rest| ensures s[0] <= rest[i] && (rest[i] == x || rest[i] in s) {
        if rest[i] != x {
          var k :| 0 <= k < |s[1..]| && s[1..][k] == rest[i];
          assert s[k + 1] == rest[i];
        }
      }
    }
  }

  lemma {:induction false} SortRealsSorts(values: seq<real>)
    ensures Sorted(SortReals(values)) && multiset(SortReals(values)) == multiset(values)
    ensures |SortReals(values)| == |values|
  {
    hide InsertReal;
    if values != [] {
      SortRealsSorts(values[1..]);
      InsertRealSorts(values[0], SortReals(values[1..]));
      InsertRealMembers(values[0], SortReals(values[1..]));
      assert values == [values[0]] + values[1..];
    }
    assert |SortReals(values)| == |multiset(SortReals(values))| == |multiset(values)|;
  }

  lemma {:induction false} SortedHeadEqual(a: seq<real>, b: seq<real>)
    requires Sorted(a) && Sorted(b) && a != [] && multiset(a) == multiset(b)
    ensures b != [] && a[0] == b[0]
  {
    assert a[0] in multiset(a);
    var i :| 0 <= i < |b| && b[i] == a[0];
    assert b[0] in multiset(b);
    var j :| 0 <= j < |a| && a[j] == b[0];
  }

  lemma {:induction false} TailMultiset(a: seq<real>)
    requires a != []
    ensures multiset(a[1..]) == multiset(a) - multiset{a[0]}
  {
    assert a == [a[0]] + a[1..];
  }

  lemma {:induction false} SortedPermutationEqual(a: seq<real>, b: seq<real>)
    requires Sorted(a) && Sorted(b) && multiset(a) == multiset(b)
    ensures a == b
  {
    if a == [] {
      assert |multiset(b)| == 0;
    } else {
      SortedHeadEqual(a, b);
      TailMultiset(a);
      TailMultiset(b);
      var ta, tb := a[1..], b[1..];
      SortedPermutationEqual(ta, tb);
      assert a == [a[0]] + ta && b == [b[0]] + tb;
    }
  }

  /** numericMedian, and statistics.median. */
  function Median(values: seq<real>): real
    requires values != []
  {
    SortRealsSorts(values);
    var sorted, middle := SortReals(values), |values| / 2;
    if |values| % 2 == 0 then (sorted[middle - 1] + sorted[middle]) / 2.0 else sorted[middle]
  }

  function MaxOf(values: seq<real>): (m: real)
    requires values != []
    ensures m in values && forall i :: 0 <= i < |values| ==> values[i] <= m
  {
    if |values| == 1 then values[0]
    else
      var rest := MaxOf(values[1..]);
      assert forall i :: 0 < i < |values| ==> values[i] == values[1..][i - 1];
      MaxReal(values[0], rest)
  }

  function CountAtMost(s: seq<real>, x: real): nat {
    if s == [] then 0 else (if s[0] <= x then 1 else 0) + CountAtMost(s[1..], x)
  }

  function CountAtLeast(s: seq<real>, x: real): nat {
    if s == [] then 0 else (if s[0] >= x then 1 else 0) + CountAtLeast(s[1..], x)
  }

  lemma {:induction false} CountsOfInsert(v: real, s: seq<real>, x: real)
    ensures CountAtMost(InsertReal(v, s), x) == (if v <= x then 1 else 0) + CountAtMost(s, x)
    ensures CountAtLeast(InsertReal(v, s), x) == (if v >= x then 1 else 0) + CountAtLeast(s, x)
  {
    if s != [] {
      CountsOfInsert(v, s[1..], x);
      assert ([v] + s)[1..] == s;
      assert ([s[0]] + InsertReal(v, s[1..]))[1..] == InsertReal(v, s[1..]);
    }
  }

  lemma {:induction false} CountsOfSort(values: seq<real>, x: real)
    ensures CountAtMost(SortReals(values), x) == CountAtMost(values, x)
    ensures CountAtLeast(SortReals(values), x) == CountAtLeast(values, x)
  {
    if values != [] {
      CountsOfSort(values[1..], x);
      CountsOfInsert(values[0], SortReals(values[1..]), x);
    }
  }

  lemma {:induction false} PrefixCount(s: seq<real>, n: nat, x: real)
    requires n <= |s| && forall i :: 0 <= i < n ==> s[i] <= x
    ensures CountAtMost(s, x) >= n
  {
    if n > 0 {
      PrefixCount(s[1..], n - 1, x);
    }
  }

  lemma {:induction false} SuffixCount(s: seq<real>, n: nat, x: real)
    requires n <= |s| && forall i :: n <= i < |s| ==> s[i] >= x
    ensures CountAtLeast(s, x) >= |s| - n
  {
    if s != [] {
      SuffixCount(s[1..], if n == 0 then 0 else n - 1, x);
    }
  }

  lemma {:induction false} SortedHalves(sorted: seq<real>, m: real)
    requires sorted != [] && Sorted(sorted)
    requires m == if |sorted| % 2 == 0 then (sorted[|sorted| / 2 - 1] + sorted[|sorted| / 2]) / 2.0
            else sorted[|sorted| / 2]
    ensures 2 * CountAtMost(sorted, m) >= |sorted| && 2 * CountAtLeast(sorted, m) >= |sorted|
    ensures m <= sorted[|sorted| / 2]
  {
    var middle := |sorted| / 2;
    PrefixCount(sorted, if |sorted| % 2 == 0 then middle else middle + 1, m);
    SuffixCount(sorted, middle, m);
  }

  lemma {:induction false} SortedMembers(values: seq<real>, i: nat)
    requires i < |values|
    ensures |SortReals(values)| == |values| && SortReals(values)[i] in values
  {
    SortRealsSorts(values);
    assert SortReals(values)[i] in multiset(SortReals(values));
  }

  /** The median is one: at least half of the values are at or below it, and at least half at or
      above it. It is no more than the maximum. */
  lemma {:induction false} MedianHalves(values: seq<real>)
    requires values != []
    ensures 2 * CountAtMost(values, Median(values)) >= |values|
    ensures 2 * CountAtLeast(values, Median(values)) >= |values|
    ensures Median(values) <= MaxOf(values)
  {
    SortRealsSorts(values);
    SortedHalves(SortReals(values), Median(values));
    CountsOfSort(values, Median(values));
    SortedMembers(values, |values| / 2);
  }

  /** x is the value of rank k, counted from 0: more than k values are at most x, and all but k at least x. */
  ghost predicate HasRank(values: seq<real>, k: int, x: real) {
    x in values && CountAtMost(values, x) > k && CountAtLeast(values, x) >= |values| - k
  }

  lemma {:induction false} CountsApart(s: seq<real>, x: real, y: real)
    requires x < y
    ensures CountAtMost(s, x) + CountAtLeast(s, y) <= |s|
  {
    if s != [] {
      CountsApart(s[1..], x, y);
    }
  }

  lemma {:induction false} RankIsUnique(values: seq<real>, k: int, x: real, y: real)
    requires HasRank(values, k, x) && HasRank(values, k, y)
    ensures x == y
  {
    if x < y {
      CountsApart(values, x, y);
    } else if y < x {
      CountsApart(values, y, x);
    }
  }

  lemma {:induction false} SortedHasRank(values: seq<real>, k: nat)
    requires k < |values|
    ensures |SortReals(values)| == |values| && HasRank(values, k, SortReals(values)[k])
  {
    hide SortReals, CountAtMost, CountAtLeast;
    SortRealsSorts(values);
    SortedMembers(values, k);
    var x := SortReals(values)[k];
    PrefixCount(SortReals(values), k + 1, x);
    SuffixCount(SortReals(values), k, x);
    CountsOfSort(values, x);
  }

  /** lo and hi are the two values in the middle, which are one for an odd count. */
  ghost predicate AreMiddle(values: seq<real>, lo: real, hi: real) {
    HasRank(values, (|values| - 1) / 2, lo) && HasRank(values, |values| / 2, hi)
  }

  ghost predicate IsMiddle(values: seq<real>, m: real) {
    exists lo, hi :: AreMiddle(values, lo, hi) && m == (lo + hi) / 2.0
  }

  /** The median is half way between the two values in the middle, which are found by counting and without
      sorting. */
  lemma {:induction false} MedianIsMiddle(values: seq<real>, m: real)
    requires values != []
    ensures Median(values) == m <==> IsMiddle(values, m)
  {
    hide HasRank;
    var n := |values|;
    SortedHasRank(values, (n - 1) / 2);
    SortedHasRank(values, n / 2);
    var lo, hi := SortReals(values)[(n - 1) / 2], SortReals(values)[n / 2];
    assert AreMiddle(values, lo, hi) && Median(values) == (lo + hi) / 2.0;
    if lo', hi' :| AreMiddle(values, lo', hi') && m == (lo' + hi') / 2.0 {
      RankIsUnique(values, (n - 1) / 2, lo, lo');
      RankIsUnique(values, n / 2, hi, hi');
    }
  }

  // ----- The first of a sorted list -----

  /** The least text of a non-empty list, which is where a sort puts it first. */
  function LeastText(texts: seq<string>, less: (string, string) -> bool): string
    requires texts != []
  {
    if |texts| == 1 then texts[0]
    else
      var least := LeastText(texts[1..], less);
      if less(least, texts[0]) then least else texts[0]
  }

  lemma {:induction false} LeastTextLeast(texts: seq<string>, less: (string, string) -> bool)
    requires texts != [] && StrictOrder(less)
    ensures LeastText(texts, less) in texts
    ensures forall t :: t in texts ==> t == LeastText(texts, less) || less(LeastText(texts, less), t)
  {
    if |texts| > 1 {
      LeastTextLeast(texts[1..], less);
      assert texts == [texts[0]] + texts[1..];
    }
  }

  /** Which text comes first does not depend on the order of the list. */
  lemma {:induction false} LeastTextOfMembers(a: seq<string>, b: seq<string>, less: (string, string) -> bool)
    requires a != [] && b != [] && StrictOrder(less)
    requires forall t :: t in a <==> t in b
    ensures LeastText(a, less) == LeastText(b, less)
  {
    LeastTextLeast(a, less);
    LeastTextLeast(b, less);
  }

  lemma {:induction false} SameMembersMax(a: seq<real>, b: seq<real>)
    requires a != [] && b != [] && multiset(a) == multiset(b)
    ensures MaxOf(a) == MaxOf(b)
  {
    assert MaxOf(a) in multiset(a) && MaxOf(b) in multiset(b);
  }

  lemma {:induction false} SameMembersMedian(a: seq<real>, b: seq<real>)
    requires a != [] && b != [] && multiset(a) == multiset(b)
    ensures Median(a) == Median(b)
  {
    SortRealsSorts(a);
    SortRealsSorts(b);
    SortedPermutationEqual(SortReals(a), SortReals(b));
  }
}
