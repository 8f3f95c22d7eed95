/** The evidence consistency check of optimization-v1, which exists twice: in
    optimization-validation.ts and in performance_contracts.py. Numbers are exact reals. */
module OptimizationEvidence {
  import opened Collections
  import opened Text
  import opened Statistics

  datatype Metric = PostMediaView | PostClicks

  const REQUIRED_METRICS := [PostMediaView, PostClicks]

  const REQUIRED_SNAPSHOT_COUNT := 3

  const PROHIBITED_CHANGES := [
    "strategy", "goal", "topic", "purpose", "audience", "channel", "locale", "format", "post_count", "media",
    "publishing_date", "publishing_time", "publishing_window", "offer", "business_facts", "already_created_content"
  ]

  datatype MetricValue = Available(value: real) | Unavailable

  datatype Evidence = Evidence(snapshotId: string, contentFormat: string, views: MetricValue, clicks: MetricValue)

  datatype Comparison = Comparison(
    metric: Metric, baselineMedian: real, values: seq<real>, bestSnapshotId: string, bestValue: real,
    deltaFromMedian: real, deltaPercent: Option<real>)

  datatype Request = Request(
    formatCohort: string, evidence: seq<Evidence>, comparisons: seq<Comparison>, prohibitedChanges: seq<string>)

  function ValueOf(e: Evidence, metric: Metric): MetricValue {
    match metric
    case PostMediaView => e.views
    case PostClicks => e.clicks
  }

  predicate Usable(v: MetricValue) {
    v.Available? && v.value >= 0.0
  }

  predicate AllUsable(evidence: seq<Evidence>, metric: Metric) {
    forall i :: 0 <= i < |evidence| ==> Usable(ValueOf(evidence[i], metric))
  }

  // ----- The expected comparison -----

  /** The usable values of a metric, in evidence order. */
  function UsableValues(evidence: seq<Evidence>, metric: Metric): seq<real> {
    if evidence == [] then []
    else
      var last := ValueOf(evidence[|evidence| - 1], metric);
      UsableValues(evidence[..|evidence| - 1], metric) + (if Usable(last) then [last.value] else [])
  }

  lemma {:induction false} UsableValuesAt(evidence: seq<Evidence>, metric: Metric)
    requires AllUsable(evidence, metric)
    ensures |UsableValues(evidence, metric)| == |evidence|
    ensures forall i :: 0 <= i < |evidence| ==> UsableValues(evidence, metric)[i] == ValueOf(evidence[i], metric).value
  {
    if evidence != [] {
      UsableValuesAt(evidence[..|evidence| - 1], metric);
    }
  }

  datatype Expected = Expected(median: real, best: real, delta: real, percent: Option<real>)

  function ExpectedOf(values: seq<real>): Expected
    requires values != []
  {
    var median, best := Median(values), MaxOf(values);
    Expected(median, best, best - median, if median > 0.0 then Some((best - median) / median * 100.0) else None)
  }

  /** The non-empty ids whose value is close to the best, in evidence order. */
  function BestIds(ids: seq<string>, values: seq<real>, best: real): seq<string> {
    if ids == [] then []
    else
      var n := |ids| - 1;
      BestIds(ids[..n], values, best)
      + (if n < |values| && CloseEnough(values[n], best) && ids[n] != "" then [ids[n]] else [])
  }

  function SnapshotIds(evidence: seq<Evidence>): seq<string> {
    seq(|evidence|, i requires 0 <= i < |evidence| => evidence[i].snapshotId)
  }

  lemma {:induction false} BestIdsMembers(ids: seq<string>, values: seq<real>, best: real, id: string)
    requires |ids| <= |values|
    ensures id in BestIds(ids, values, best) <==>
            exists i :: 0 <= i < |ids| && ids[i] == id && id != "" && CloseEnough(values[i], best)
  {
    hide CloseEnough;
    if ids != [] {
      var n := |ids| - 1;
      var init := ids[..n];
      BestIdsMembers(init, values, best, id);
      if i :| 0 <= i < n && ids[i] == id && id != "" && CloseEnough(values[i], best) {
        assert init[i] == id;
      }
      if i :| 0 <= i < n && init[i] == id && id != "" && CloseEnough(values[i], best) {
        assert ids[i] == id;
      }
    }
  }

  // ----- The TypeScript check -----

  predicate ValuesMatch(close: (real, real) -> bool, actual: seq<real>, expected: seq<real>) {
    |actual| == |expected| && forall i :: 0 <= i < |actual| ==> close(actual[i], expected[i])
  }

  predicate PercentMatches(close: (real, real) -> bool, actual: Option<real>, expected: Option<real>) {
    if expected.None? then actual.None? else actual.Some? && close(actual.value, expected.value)
  }

  predicate NumbersMatch(close: (real, real) -> bool, c: Comparison, expected: Expected) {
    && close(c.baselineMedian, expected.median)
    && close(c.bestValue, expected.best)
    && close(c.deltaFromMedian, expected.delta)
    && PercentMatches(close, c.deltaPercent, expected.percent)
  }

  predicate IsFirst(id: string, ids: seq<string>) {
    ids != [] && id == LeastText(ids, Before)
  }

  /** What one comparison must say about the values of its metric. */
  predicate ComparisonConsistent(ids: seq<string>, values: seq<real>, c: Comparison) {
    && ValuesMatch(CloseEnough, c.values, values)
    && (values != [] ==>
          && NumbersMatch(CloseEnough, c, ExpectedOf(values))
          && IsFirst(c.bestSnapshotId, BestIds(ids, values, MaxOf(values))))
  }

  predicate FrozenMetrics(comparisons: seq<Comparison>) {
    |comparisons| == 2 && comparisons[0].metric == PostMediaView && comparisons[1].metric == PostClicks
  }

  ghost predicate EvidenceUsable(r: Request) {
    && Distinct(SnapshotIds(r.evidence))
    && (forall i :: 0 <= i < |r.evidence| ==> r.evidence[i].contentFormat == r.formatCohort)
    && AllUsable(r.evidence, PostMediaView) && AllUsable(r.evidence, PostClicks)
  }

  ghost predicate Consistent(r: Request) {
    && EvidenceUsable(r)
    && FrozenMetrics(r.comparisons)
    && forall i :: 0 <= i < |r.comparisons| ==> ConsistentAt(r, i)
  }

  predicate ConsistentAt(r: Request, i: nat)
    requires i < |r.comparisons|
  {
    var c := r.comparisons[i];
    ComparisonConsistent(SnapshotIds(r.evidence), UsableValues(r.evidence, c.metric), c)
  }

  datatype Issue =
    | DuplicateSnapshot | FormatMismatch | MetricUnavailable | MetricsNotFrozen | ValuesDiffer | MedianDiffers
    | BestDiffers | DeltaDiffers | PercentDiffers | BestSnapshotDiffers | NotFrozenChanges

  lemma {:induction false} EvidenceUsableStep(r: Request, before: seq<Evidence>, item: Evidence)
    ensures EvidenceUsable(r.(evidence := before + [item])) <==>
            && EvidenceUsable(r.(evidence := before))
            && item.snapshotId !in SnapshotIds(before)
            && item.contentFormat == r.formatCohort
            && Usable(item.views) && Usable(item.clicks)
  {
    var all := before + [item];
    assert SnapshotIds(all) == SnapshotIds(before) + [item.snapshotId];
    assert all[|before|] == item && forall j :: 0 <= j < |before| ==> all[j] == before[j];
    assert ValueOf(item, PostMediaView) == item.views && ValueOf(item, PostClicks) == item.clicks;
    assert forall m :: AllUsable(all, m) <==> AllUsable(before, m) && Usable(ValueOf(item, m));
    DistinctStep(SnapshotIds(before), item.snapshotId);
  }

  /** One evidence item: the issues it raises. */
  method CheckEvidence(item: Evidence, formatCohort: string, seen: set<string>) returns (issues: seq<Issue>)
    ensures issues == [] <==>
            && item.snapshotId !in seen && item.contentFormat == formatCohort
            && Usable(item.views) && Usable(item.clicks)
  {
    issues := [];
    if item.snapshotId in seen {
      issues := issues + [DuplicateSnapshot];
    }
    if item.contentFormat != formatCohort {
      issues := issues + [FormatMismatch];
    }
    for m := 0 to |REQUIRED_METRICS|
      invariant issues == [] <==>
                && item.snapshotId !in seen && item.contentFormat == formatCohort
                && forall k :: 0 <= k < m ==> Usable(ValueOf(item, REQUIRED_METRICS[k]))
    {
      if !Usable(ValueOf(item, REQUIRED_METRICS[m])) {
        issues := issues + [MetricUnavailable];
      }
    }
    assert REQUIRED_METRICS[0] == PostMediaView && REQUIRED_METRICS[1] == PostClicks;
  }

  /** The evidence loop: the issues found, and the usable values of each metric in order. */
  method PrepareEvidence(r: Request) returns (issues: seq<Issue>, values: map<Metric, seq<real>>)
    ensures issues == [] <==> EvidenceUsable(r)
    ensures values.Keys == {PostMediaView, PostClicks}
    ensures forall m :: m in values ==> values[m] == UsableValues(r.evidence, m)
  {
    hide EvidenceUsable, SnapshotIds, UsableValues;
    var views: seq<real>, clicks: seq<real> := [], [];
    issues := [];
    var seen: set<string> := {};
    NothingPrepared();
    assert issues == [] <==> EvidenceUsable(r.(evidence := r.evidence[..0])) by {
      NoEvidenceUsable(r.(evidence := []));
      assert r.evidence[..0] == [];
    }
    for i := 0 to |r.evidence|
      invariant seen == set id | id in SnapshotIds(r.evidence[..i])
      invariant views == UsableValues(r.evidence[..i], PostMediaView)
      invariant clicks == UsableValues(r.evidence[..i], PostClicks)
      invariant issues == [] <==> EvidenceUsable(r.(evidence := r.evidence[..i]))
    {
      var item := r.evidence[i];
      ghost var before := r.evidence[..i];
      assert r.evidence[..i + 1] == before + [item] && (before + [item])[..i] == before;
      EvidenceUsableStep(r, before, item);
      var found := CheckEvidence(item, r.formatCohort, seen);
      seen := seen + {item.snapshotId};
      IdsStep(before, item);
      UsableStep(before, item, PostMediaView);
      UsableStep(before, item, PostClicks);
      if Usable(item.views) { views := views + [item.views.value]; }
      if Usable(item.clicks) { clicks := clicks + [item.clicks.value]; }
      issues := issues + found;
    }
    assert r.evidence[..|r.evidence|] == r.evidence && r.(evidence := r.evidence) == r;
    values := map[PostMediaView := views, PostClicks := clicks];
  }

  lemma {:induction false} NothingPrepared()
    ensures SnapshotIds([]) == []
    ensures forall metric :: UsableValues([], metric) == []
  {
  }

  lemma {:induction false} IdsStep(before: seq<Evidence>, item: Evidence)
    ensures (set id | id in SnapshotIds(before + [item])) == (set id | id in SnapshotIds(before)) + {item.snapshotId}
  {
    assert SnapshotIds(before + [item]) == SnapshotIds(before) + [item.snapshotId];
  }

  lemma {:induction false} UsableStep(before: seq<Evidence>, item: Evidence, metric: Metric)
    ensures UsableValues(before + [item], metric)
            == UsableValues(before, metric)
               + (if Usable(ValueOf(item, metric)) then [ValueOf(item, metric).value] else [])
  {
    assert (before + [item])[..|before|] == before;
  }

  lemma {:induction false} NoEvidenceUsable(r: Request)
    requires r.evidence == []
    ensures EvidenceUsable(r)
  {
  }

  /** One comparison: the issues it raises. */
  method CheckComparison(ids: seq<string>, values: seq<real>, c: Comparison) returns (issues: seq<Issue>)
    ensures issues == [] <==> ComparisonConsistent(ids, values, c)
  {
    issues := [];
    if !ValuesMatch(CloseEnough, c.values, values) {
      return [ValuesDiffer];
    }
    if values == [] {
      return;
    }
    hide Median, MaxOf, LeastText, BestIds, CloseEnough, ValuesMatch;
    var expectedMedian := Median(values);
    var expectedBest := MaxOf(values);
    var expectedDelta := expectedBest - expectedMedian;
    var expectedPercent := if expectedMedian > 0.0 then Some(expectedDelta / expectedMedian * 100.0) else None;
    if !CloseEnough(c.baselineMedian, expectedMedian) {
      issues := issues + [MedianDiffers];
    }
    if !CloseEnough(c.bestValue, expectedBest) {
      issues := issues + [BestDiffers];
    }
    if !CloseEnough(c.deltaFromMedian, expectedDelta) {
      issues := issues + [DeltaDiffers];
    }
    if !PercentMatches(CloseEnough, c.deltaPercent, expectedPercent) {
      issues := issues + [PercentDiffers];
    }
    if !IsFirst(c.bestSnapshotId, BestIds(ids, values, expectedBest)) {
      issues := issues + [BestSnapshotDiffers];
    }
  }

  /** validateGenerationConsistency. */
  method ValidateGenerationConsistency(r: Request) returns (issues: seq<Issue>)
    ensures issues == [] <==> Consistent(r)
  {
    hide EvidenceUsable, UsableValues, ComparisonConsistent;
    var found, values := PrepareEvidence(r);
    issues := found;
    if !FrozenMetrics(r.comparisons) {
      return issues + [MetricsNotFrozen];
    }
    for i := 0 to |r.comparisons|
      invariant issues == [] <==> EvidenceUsable(r) && forall j :: 0 <= j < i ==> ConsistentAt(r, j)
    {
      var c := r.comparisons[i];
      var raised := CheckComparison(SnapshotIds(r.evidence), values[c.metric], c);
      assert raised == [] <==> ConsistentAt(r, i);
      issues := issues + raised;
    }
  }

  /** The prohibited-change check of validateOptimizationGenerationRequestV1, then the consistency
      check. */
  method ValidateEvidenceOfRequest(r: Request) returns (issues: seq<Issue>)
    ensures issues == [] <==> TsAccepts(r)
  {
    hide Consistent;
    issues := [];
    if r.prohibitedChanges != PROHIBITED_CHANGES {
      issues := [NotFrozenChanges];
    }
    var found := ValidateGenerationConsistency(r);
    issues := issues + found;
  }

  ghost predicate TsAccepts(r: Request) {
    r.prohibitedChanges == PROHIBITED_CHANGES && Consistent(r)
  }

  // ----- What acceptance means -----

  /** The baseline is close to a true median: half of the evidence is at or below it and half at or
      above. The best value is close to the maximum, so it is not below the median by more than the
      tolerance. */
  lemma {:induction false} ConsistentNumbers(r: Request, k: nat)
    requires Consistent(r) && k < |r.comparisons| && r.evidence != []
    ensures var c := r.comparisons[k];
            var values := UsableValues(r.evidence, c.metric);
            && |values| == |r.evidence|
            && (forall i :: 0 <= i < |values| ==>
                  ValueOf(r.evidence[i], c.metric) == Available(values[i]) && values[i] >= 0.0)
            && CloseEnough(c.baselineMedian, Median(values))
            && 2 * CountAtMost(values, Median(values)) >= |values|
            && 2 * CountAtLeast(values, Median(values)) >= |values|
            && CloseEnough(c.bestValue, MaxOf(values))
            && c.bestValue >= Median(values) - TOLERANCE * MaxReal(1.0, MaxReal(Abs(c.bestValue), Abs(MaxOf(values))))
  {
    hide Median, MaxOf, CountAtLeast, CountAtMost, BestIds, LeastText;
    var c := r.comparisons[k];
    var values := UsableValues(r.evidence, c.metric);
    assert ConsistentAt(r, k);
    assert AllUsable(r.evidence, c.metric);
    UsableValuesAt(r.evidence, c.metric);
    MedianHalves(values);
  }

  /** best is this many percent above median. */
  predicate IsGrowth(median: real, best: real, percent: real) {
    median * (1.0 + percent / 100.0) == best
  }

  lemma {:induction false} GrowthIsUnique(median: real, best: real, p: real, q: real)
    requires median > 0.0 && IsGrowth(median, best, p) && IsGrowth(median, best, q)
    ensures p == q
  {
    assert median * ((p - q) / 100.0) == 0.0;
  }

  /** What the expected numbers mean: the delta leads from the median to the maximum, and so does the percentage,
      which is asked for exactly when the median is positive. */
  lemma {:induction false} ExpectedMeans(values: seq<real>)
    requires values != []
    ensures var e := ExpectedOf(values);
            && IsMiddle(values, e.median)
            && e.best in values && (forall i :: 0 <= i < |values| ==> values[i] <= e.best)
            && e.median + e.delta == e.best
            && (e.percent.Some? <==> e.median > 0.0)
            && (e.percent.Some? ==> IsGrowth(e.median, e.best, e.percent.value))
  {
    hide Median, MaxOf, IsMiddle;
    MedianIsMiddle(values, Median(values));
    var e := ExpectedOf(values);
    if e.percent.Some? {
      var ratio := (e.best - e.median) / e.median;
      assert e.percent.value / 100.0 == ratio;
      assert e.median * ratio == e.best - e.median;
    }
  }

  /** The least of the ids whose value is within tolerance of the best. */
  ghost predicate IsFirstBest(ids: seq<string>, values: seq<real>, best: real, first: string)
    requires |ids| == |values|
  {
    && (exists i :: 0 <= i < |ids| && ids[i] == first != "" && CloseEnough(values[i], best))
    && forall i :: 0 <= i < |ids| && ids[i] != "" && CloseEnough(values[i], best) ==>
         ids[i] == first || Before(first, ids[i])
  }

  lemma {:induction false} FirstBestIsFirst(ids: seq<string>, values: seq<real>, best: real, first: string)
    requires |ids| == |values| && IsFirstBest(ids, values, best, first)
    ensures BestIds(ids, values, best) != [] && LeastText(BestIds(ids, values, best), Before) == first
  {
    hide CloseEnough, BestIds, LeastText, Before;
    var near := BestIds(ids, values, best);
    BestIdsMembers(ids, values, best, first);
    BeforeIsStrictOrder();
    LeastTextLeast(near, Before);
    var least := LeastText(near, Before);
    BestIdsMembers(ids, values, best, least);
  }

  /** One comparison is accepted exactly when it gives, each within tolerance, the values themselves, the value in
      the middle, the greatest value, the step from the one to the other and that step in percent, the last exactly
      when the middle is positive, and names the least of the best ids. None of this mentions how it is computed. */
  lemma {:induction false} ComparisonIff(
      ids: seq<string>, values: seq<real>, c: Comparison, median: real, best: real, first: string)
    requires |ids| == |values| && IsMiddle(values, median) && IsFirstBest(ids, values, best, first)
    requires best in values && forall i :: 0 <= i < |values| ==> values[i] <= best
    ensures ComparisonConsistent(ids, values, c) <==>
            && |c.values| == |values| && (forall i :: 0 <= i < |values| ==> CloseEnough(c.values[i], values[i]))
            && CloseEnough(c.baselineMedian, median) && CloseEnough(c.bestValue, best)
            && CloseEnough(c.deltaFromMedian, best - median)
            && (c.deltaPercent.Some? <==> median > 0.0)
            && (c.deltaPercent.Some? ==>
                  exists p :: IsGrowth(median, best, p) && CloseEnough(c.deltaPercent.value, p))
            && c.bestSnapshotId == first
  {
    hide Median, MaxOf, IsMiddle, CloseEnough, BestIds, LeastText, IsFirstBest, IsGrowth;
    MedianIsMiddle(values, median);
    ExpectedMeans(values);
    FirstBestIsFirst(ids, values, best, first);
    var e := ExpectedOf(values);
    assert e.median == median && e.best == best && e.delta == best - median;
    if p :| median > 0.0 && IsGrowth(median, best, p) && c.deltaPercent.Some? && CloseEnough(c.deltaPercent.value, p) {
      GrowthIsUnique(median, best, p, e.percent.value);
    }
  }

  /** The best id is the least of the ids whose evidence is within tolerance of the maximum. */
  lemma {:induction false} ConsistentBestId(r: Request, k: nat) returns (at: nat)
    requires Consistent(r) && k < |r.comparisons| && r.evidence != []
    ensures var c := r.comparisons[k];
            var values := UsableValues(r.evidence, c.metric);
            && at < |r.evidence| == |values|
            && r.evidence[at].snapshotId == c.bestSnapshotId
            && CloseEnough(values[at], MaxOf(values))
            && forall i ::
                 && 0 <= i < |values| && CloseEnough(values[i], MaxOf(values))
                 && r.evidence[i].snapshotId != "" ==>
                 i == at || Before(c.bestSnapshotId, r.evidence[i].snapshotId)
  {
    hide MaxOf, LeastText, CloseEnough, Median, BestIds, Before, Usable;
    var c := r.comparisons[k];
    var values, ids := UsableValues(r.evidence, c.metric), SnapshotIds(r.evidence);
    assert ConsistentAt(r, k) && AllUsable(r.evidence, c.metric);
    UsableValuesAt(r.evidence, c.metric);
    var near := BestIds(ids, values, MaxOf(values));
    BeforeIsStrictOrder();
    LeastTextLeast(near, Before);
    BestIdsMembers(ids, values, MaxOf(values), c.bestSnapshotId);
    at :| 0 <= at < |ids| && ids[at] == c.bestSnapshotId && CloseEnough(values[at], MaxOf(values));
    forall i | 0 <= i < |values| && CloseEnough(values[i], MaxOf(values)) && ids[i] != ""
      ensures i == at || Before(c.bestSnapshotId, ids[i])
    {
      BestIdsMembers(ids, values, MaxOf(values), ids[i]);
      assert ids[i] in near;
      if i != at {
        assert ids[i] != ids[at];
      }
    }
  }

  // ----- Order of the evidence -----

  lemma {:induction false} UsableValuesConcat(a: seq<Evidence>, b: seq<Evidence>, metric: Metric)
    ensures UsableValues(a + b, metric) == UsableValues(a, metric) + UsableValues(b, metric)
  {
    if b == [] {
      assert a + b == a;
    } else {
      UsableValuesConcat(a, b[..|b| - 1], metric);
      assert (a + b)[..|a + b| - 1] == a + b[..|b| - 1];
    }
  }

  lemma {:induction false} UsableValuesWithout(b: seq<Evidence>, i: nat, metric: Metric)
    requires i < |b|
    ensures multiset(UsableValues(b, metric))
            == multiset(UsableValues(b[..i] + b[i + 1..], metric)) + multiset(UsableValues([b[i]], metric))
  {
    hide UsableValues;
    UsableValuesConcat(b[..i], b[i + 1..], metric);
    UsableValuesConcat(b[..i], [b[i]], metric);
    UsableValuesConcat(b[..i] + [b[i]], b[i + 1..], metric);
    assert b == (b[..i] + [b[i]]) + b[i + 1..];
  }

  lemma {:induction false} MembersWithout(b: seq<Evidence>, i: nat)
    requires i < |b|
    ensures multiset(b[..i] + b[i + 1..]) == multiset(b) - multiset{b[i]}
  {
    assert b == b[..i] + [b[i]] + b[i + 1..];
  }

  lemma {:induction false} UsableValuesPermute(a: seq<Evidence>, b: seq<Evidence>, metric: Metric)
    requires multiset(a) == multiset(b)
    ensures multiset(UsableValues(a, metric)) == multiset(UsableValues(b, metric))
    decreases |a|
  {
    hide UsableValues;
    if a == [] {
      assert |multiset(b)| == 0;
    } else {
      var n := |a| - 1;
      assert a[n] in multiset(b);
      var i :| 0 <= i < |b| && b[i] == a[n];
      MembersWithout(a, n);
      MembersWithout(b, i);
      UsableValuesPermute(a[..n] + a[n + 1..], b[..i] + b[i + 1..], metric);
      UsableValuesWithout(a, n, metric);
      UsableValuesWithout(b, i, metric);
    }
  }

  lemma {:induction false} BestIdsPermute(a: seq<Evidence>, b: seq<Evidence>, metric: Metric, best: real, id: string)
    requires multiset(a) == multiset(b) && AllUsable(a, metric) && AllUsable(b, metric)
    requires id in BestIds(SnapshotIds(a), UsableValues(a, metric), best)
    ensures id in BestIds(SnapshotIds(b), UsableValues(b, metric), best)
  {
    hide CloseEnough;
    UsableValuesAt(a, metric);
    UsableValuesAt(b, metric);
    BestIdsMembers(SnapshotIds(a), UsableValues(a, metric), best, id);
    BestIdsMembers(SnapshotIds(b), UsableValues(b, metric), best, id);
    var i :| 0 <= i < |a| && SnapshotIds(a)[i] == id && id != "" && CloseEnough(UsableValues(a, metric)[i], best);
    assert a[i] in multiset(b);
    var j :| 0 <= j < |b| && b[j] == a[i];
    assert SnapshotIds(b)[j] == id;
  }

  lemma {:induction false} AllUsablePermute(a: seq<Evidence>, b: seq<Evidence>, metric: Metric)
    requires multiset(a) == multiset(b) && AllUsable(a, metric)
    ensures AllUsable(b, metric)
  {
    forall i | 0 <= i < |b| ensures Usable(ValueOf(b[i], metric)) {
      assert b[i] in multiset(a);
    }
  }

  lemma {:induction false} MaxIsNearBest(evidence: seq<Evidence>, metric: Metric)
    requires evidence != [] && AllUsable(evidence, metric)
    requires forall e :: e in evidence ==> e.snapshotId != ""
    ensures UsableValues(evidence, metric) != []
    ensures BestIds(SnapshotIds(evidence), UsableValues(evidence, metric), MaxOf(UsableValues(evidence, metric))) != []
  {
    UsableValuesAt(evidence, metric);
    var values := UsableValues(evidence, metric);
    var i :| 0 <= i < |values| && values[i] == MaxOf(values);
    assert evidence[i] in evidence;
    BestIdsMembers(SnapshotIds(evidence), values, MaxOf(values), evidence[i].snapshotId);
  }

  lemma {:induction false} SameBestIds(a: seq<Evidence>, b: seq<Evidence>, metric: Metric, best: real)
    requires multiset(a) == multiset(b) && AllUsable(a, metric) && AllUsable(b, metric)
    ensures forall id :: id in BestIds(SnapshotIds(a), UsableValues(a, metric), best)
                         <==> id in BestIds(SnapshotIds(b), UsableValues(b, metric), best)
  {
    hide BestIds, UsableValues, AllUsable;
    var ia := BestIds(SnapshotIds(a), UsableValues(a, metric), best);
    var ib := BestIds(SnapshotIds(b), UsableValues(b, metric), best);
    forall id ensures id in ia <==> id in ib {
      if id in ia { BestIdsPermute(a, b, metric, best, id); }
      if id in ib { BestIdsPermute(b, a, metric, best, id); }
    }
  }

  /** Expected median, best, delta, percentage and best id are the same for every ordering of the
      evidence. */
  lemma {:induction false} ExpectationIgnoresOrder(a: seq<Evidence>, b: seq<Evidence>, metric: Metric)
    requires multiset(a) == multiset(b) && a != [] && AllUsable(a, metric)
    requires forall e :: e in a ==> e.snapshotId != ""
    ensures UsableValues(a, metric) != [] && UsableValues(b, metric) != []
    ensures ExpectedOf(UsableValues(a, metric)) == ExpectedOf(UsableValues(b, metric))
    ensures forall id ::
              IsFirst(id, BestIds(SnapshotIds(a), UsableValues(a, metric), MaxOf(UsableValues(a, metric)))) <==>
              IsFirst(id, BestIds(SnapshotIds(b), UsableValues(b, metric), MaxOf(UsableValues(b, metric))))
  {
    hide Median, MaxOf, BestIds, LeastText, UsableValues, AllUsable, Usable, SnapshotIds, CloseEnough, Before;
    AllUsablePermute(a, b, metric);
    UsableValuesPermute(a, b, metric);
    MaxIsNearBest(a, metric);
    NamedPermute(a, b);
    MaxIsNearBest(b, metric);
    var va, vb := UsableValues(a, metric), UsableValues(b, metric);
    SameMembersMedian(va, vb);
    SameMembersMax(va, vb);
    var best := MaxOf(va);
    SameBestIds(a, b, metric, best);
    BeforeIsStrictOrder();
    LeastTextOfMembers(BestIds(SnapshotIds(a), va, best), BestIds(SnapshotIds(b), vb, best), Before);
  }

  lemma {:induction false} NamedPermute(a: seq<Evidence>, b: seq<Evidence>)
    requires multiset(a) == multiset(b) && a != []
    requires forall e :: e in a ==> e.snapshotId != ""
    ensures b != [] && forall e :: e in b ==> e.snapshotId != ""
  {
    assert |b| == |multiset(b)| == |multiset(a)| == |a|;
    assert forall e :: e in b ==> e in multiset(a);
  }
}
