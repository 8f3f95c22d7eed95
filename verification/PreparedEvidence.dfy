/** The Python twin of the evidence check, OptimizationGenerationRequestV1.validate_prepared_evidence,
    and its agreement with the TypeScript one. */
module PreparedEvidence {
  import opened Collections
  import opened Text
  import opened Statistics
  import opened OptimizationEvidence

  datatype ValidationError =
    | DuplicateIds | FormatDiffers | ChangesDiffer | MetricSetDiffers | MetricMissing | ValuesDoNotMatch
    | MedianNotDeterministic | BestNotDeterministic | BestIdNotCanonical | DeltaNotDeterministic
      | PercentNotDeterministic

  /** str(UUID(id)) of a hyphenated UUID. */
  function CanonicalUuid(id: string): (s: string)
    ensures |s| == |id|
  {
    seq(|id|, i requires 0 <= i < |id| => LowerChar(id[i]))
  }

  function LowerChar(c: char): char {
    if 'A' <= c <= 'Z' then (c as int + 32) as char else c
  }

  function UpperChar(c: char): char {
    if 'a' <= c <= 'f' then (c as int - 32) as char else c
  }

  function UpperCase(id: string): string {
    seq(|id|, i requires 0 <= i < |id| => UpperChar(id[i]))
  }

  /** Two UUIDs are one for Python exactly when they are the same in upper case; TypeScript compares them as they
      are. */
  lemma {:induction false} CanonicalIgnoresCase(a: string, b: string)
    requires IsUuid(a) && IsUuid(b)
    ensures CanonicalUuid(a) == CanonicalUuid(b) <==> UpperCase(a) == UpperCase(b)
    ensures IsLowerUuid(CanonicalUuid(a)) && CanonicalUuid(CanonicalUuid(a)) == CanonicalUuid(a)
  {
    if CanonicalUuid(a) == CanonicalUuid(b) {
      forall i | 0 <= i < |a| ensures UpperCase(a)[i] == UpperCase(b)[i] {
        assert CanonicalUuid(a)[i] == CanonicalUuid(b)[i];
      }
    }
    if UpperCase(a) == UpperCase(b) {
      forall i | 0 <= i < |a| ensures CanonicalUuid(a)[i] == CanonicalUuid(b)[i] {
        assert UpperCase(a)[i] == UpperCase(b)[i];
      }
    }
  }

  predicate IsLowerUuid(id: string) {
    IsUuid(id) && forall i :: 0 <= i < |id| ==> !('A' <= id[i] <= 'F')
  }

  /** `<` on Python strings compares code points. */
  predicate CodePointBefore(a: string, b: string) {
    if b == [] then false
    else if a == [] then true
    else if a[0] == b[0] then CodePointBefore(a[1..], b[1..])
    else a[0] < b[0]
  }

  lemma {:induction false} OrdersAgree(a: string, b: string)
    requires forall i :: 0 <= i < |a| ==> a[i] as int < 0xE000
    requires forall i :: 0 <= i < |b| ==> b[i] as int < 0xE000
    ensures Before(a, b) <==> CodePointBefore(a, b)
  {
    if a != [] && b != [] && a[0] == b[0] {
      OrdersAgree(a[1..], b[1..]);
    }
  }

  /** A prepared list: the id and value of each evidence item. */
  type Prepared = seq<(string, real)>

  predicate AllAvailable(evidence: seq<Evidence>, metric: Metric) {
    forall i :: 0 <= i < |evidence| ==> ValueOf(evidence[i], metric).Available?
  }

  function PreparedOf(evidence: seq<Evidence>, metric: Metric): (prepared: Prepared)
    requires AllAvailable(evidence, metric)
    ensures |prepared| == |evidence|
  {
    seq(|evidence|, i requires 0 <= i < |evidence| =>
      (CanonicalUuid(evidence[i].snapshotId), ValueOf(evidence[i], metric).value))
  }

  function ValuesOf(prepared: Prepared): (values: seq<real>)
    ensures |values| == |prepared|
  {
    seq(|prepared|, i requires 0 <= i < |prepared| => prepared[i].1)
  }

  /** The ids whose value is close to the best. */
  function CloseIds(prepared: Prepared, best: real): seq<string> {
    if prepared == [] then []
    else
      var n := |prepared| - 1;
      CloseIds(prepared[..n], best) + (if IsClose(prepared[n].1, best) then [prepared[n].0] else [])
  }

  predicate PreparedMatches(prepared: Prepared, c: Comparison) {
    var values := ValuesOf(prepared);
    && ValuesMatch(IsClose, c.values, values)
    && values != []
    && NumbersMatch(IsClose, c, ExpectedOf(values))
    && var ids := CloseIds(prepared, MaxOf(values));
    && ids != []
    && CanonicalUuid(c.bestSnapshotId) == LeastText(ids, CodePointBefore)
  }

  predicate ComparisonHolds(evidence: seq<Evidence>, c: Comparison) {
    AllAvailable(evidence, c.metric) && PreparedMatches(PreparedOf(evidence, c.metric), c)
  }

  function CanonicalIds(evidence: seq<Evidence>): (ids: seq<string>)
    ensures |ids| == |evidence|
  {
    seq(|evidence|, i requires 0 <= i < |evidence| => CanonicalUuid(evidence[i].snapshotId))
  }

  ghost predicate PyAccepts(r: Request) {
    |r.evidence| < REQUIRED_SNAPSHOT_COUNT
    || (&& Distinct(CanonicalIds(r.evidence))
        && (forall i :: 0 <= i < |r.evidence| ==> r.evidence[i].contentFormat == r.formatCohort)
        && r.prohibitedChanges == PROHIBITED_CHANGES
        && FrozenMetrics(r.comparisons)
        && forall i :: 0 <= i < |r.comparisons| ==> ComparisonHolds(r.evidence, r.comparisons[i]))
  }

  // ----- The validator -----

  lemma {:induction false} MaxIsClose(prepared: Prepared, at: nat, best: real)
    requires at < |prepared| && prepared[at].1 == best
    ensures CloseIds(prepared, best) != []
  {
    var n := |prepared| - 1;
    if at < n {
      MaxIsClose(prepared[..n], at, best);
    }
  }

  /** The inner loop: prepares the items of one metric, or finds one unavailable. */
  method Prepare(evidence: seq<Evidence>, metric: Metric) returns (prepared: Option<Prepared>)
    ensures prepared.Some? <==> AllAvailable(evidence, metric)
    ensures prepared.Some? ==> prepared.value == PreparedOf(evidence, metric)
  {
    var list: Prepared := [];
    for i := 0 to |evidence|
      invariant |list| == i && AllAvailable(evidence[..i], metric)
      invariant forall j :: 0 <= j < i ==> list[j] == (CanonicalUuid(evidence[j].snapshotId),
              ValueOf(evidence[j], metric).value)
    {
      assert forall j :: 0 <= j < i ==> evidence[..i][j] == evidence[j];
      match ValueOf(evidence[i], metric) {
        case Unavailable => return None;
        case Available(value) => list := list + [(CanonicalUuid(evidence[i].snapshotId), value)];
      }
    }
    assert evidence[..|evidence|] == evidence;
    return Some(list);
  }

  /** The checks of one comparison, in source order. */
  method CheckPrepared(prepared: Prepared, c: Comparison) returns (error: Option<ValidationError>)
    requires prepared != []
    ensures error.None? <==> PreparedMatches(prepared, c)
  {
    hide Median, MaxOf, LeastText, CloseIds, IsClose, ValuesMatch, CanonicalUuid, CodePointBefore;
    var values := ValuesOf(prepared);
    if !ValuesMatch(IsClose, c.values, values) {
      return Some(ValuesDoNotMatch);
    }
    var expectedMedian := Median(values);
    var expectedBest := MaxOf(values);
    var expectedDelta := expectedBest - expectedMedian;
    var expectedPercent := if expectedMedian > 0.0 then Some(expectedDelta / expectedMedian * 100.0) else None;
    ghost var at :| 0 <= at < |values| && values[at] == expectedBest;
    MaxIsClose(prepared, at, expectedBest);
    var bestId := LeastText(CloseIds(prepared, expectedBest), CodePointBefore);
    if !IsClose(c.baselineMedian, expectedMedian) {
      return Some(MedianNotDeterministic);
    }
    if !IsClose(c.bestValue, expectedBest) {
      return Some(BestNotDeterministic);
    }
    if CanonicalUuid(c.bestSnapshotId) != bestId {
      return Some(BestIdNotCanonical);
    }
    if !IsClose(c.deltaFromMedian, expectedDelta) {
      return Some(DeltaNotDeterministic);
    }
    if !PercentMatches(IsClose, c.deltaPercent, expectedPercent) {
      return Some(PercentNotDeterministic);
    }
    return None;
  }

  method ValidatePreparedEvidence(r: Request) returns (error: Option<ValidationError>)
    ensures error.None? <==> PyAccepts(r)
  {
    hide PreparedMatches, CanonicalIds;
    if |r.evidence| < REQUIRED_SNAPSHOT_COUNT {
      return None;
    }
    var ids := CanonicalIds(r.evidence);
    SetSize(ids);
    if |set id | id in ids| != |r.evidence| {
      return Some(DuplicateIds);
    }
    if exists i :: 0 <= i < |r.evidence| && r.evidence[i].contentFormat != r.formatCohort {
      return Some(FormatDiffers);
    }
    if r.prohibitedChanges != PROHIBITED_CHANGES {
      return Some(ChangesDiffer);
    }
    if !FrozenMetrics(r.comparisons) {
      return Some(MetricSetDiffers);
    }
    for i := 0 to |r.comparisons|
      invariant forall j :: 0 <= j < i ==> ComparisonHolds(r.evidence, r.comparisons[j])
    {
      var c := r.comparisons[i];
      var prepared := Prepare(r.evidence, c.metric);
      if prepared.None? {
        return Some(MetricMissing);
      }
      var found := CheckPrepared(prepared.value, c);
      if found.Some? {
        return found;
      }
    }
    return None;
  }

  // ----- Agreement -----

  /** What both schemas already guarantee of each field, with ids written in lower case. */
  predicate WellTyped(r: Request) {
    && (forall i :: 0 <= i < |r.evidence| ==> WellTypedEvidence(r.evidence[i]))
    && (forall i :: 0 <= i < |r.comparisons| ==> IsLowerUuid(r.comparisons[i].bestSnapshotId))
  }

  predicate WellTypedEvidence(e: Evidence) {
    && IsLowerUuid(e.snapshotId)
    && (e.views.Available? ==> e.views.value >= 0.0)
    && (e.clicks.Available? ==> e.clicks.value >= 0.0)
  }

  lemma {:induction false} LowerUuidIsCanonical(id: string)
    requires IsLowerUuid(id)
    ensures CanonicalUuid(id) == id && id != ""
    ensures forall i :: 0 <= i < |id| ==> id[i] as int < 0xE000
  {
  }

  lemma {:induction false} TolerancePredicatesAgree()
    ensures forall a, b :: CloseEnough(a, b) <==> IsClose(a, b)
  {
    forall a, b ensures CloseEnough(a, b) <==> IsClose(a, b) {
      TolerancesAgree(a, b);
    }
  }

  lemma {:induction false} CloseIdsAgree(ids: seq<string>, values: seq<real>, prepared: Prepared, best: real)
    requires |ids| == |values| == |prepared|
    requires forall i :: 0 <= i < |ids| ==> ids[i] != "" && prepared[i] == (ids[i], values[i])
    ensures BestIds(ids, values, best) == CloseIds(prepared, best)
    ensures forall id :: id in CloseIds(prepared, best) ==> id in ids
  {
    if ids != [] {
      var n := |ids| - 1;
      BestIdsPrefix(ids[..n], values, best);
      CloseIdsAgree(ids[..n], values[..n], prepared[..n], best);
      TolerancesAgree(values[n], best);
    }
  }

  lemma {:induction false} BestIdsPrefix(ids: seq<string>, values: seq<real>, best: real)
    requires |ids| <= |values|
    ensures BestIds(ids, values, best) == BestIds(ids, values[..|ids|], best)
  {
    if ids != [] {
      var n := |ids| - 1;
      BestIdsPrefix(ids[..n], values, best);
      BestIdsPrefix(ids[..n], values[..|ids|], best);
      assert values[..|ids|][..n] == values[..n];
    }
  }

  lemma {:induction false} LeastTextAgree(texts: seq<string>)
    requires texts != []
    requires forall t :: t in texts ==> forall i :: 0 <= i < |t| ==> t[i] as int < 0xE000
    ensures LeastText(texts, Before) == LeastText(texts, CodePointBefore)
    ensures LeastText(texts, Before) in texts
  {
    if |texts| > 1 {
      LeastTextAgree(texts[1..]);
      OrdersAgree(LeastText(texts[1..], Before), texts[0]);
    }
  }

  lemma {:induction false} IdsAgree(evidence: seq<Evidence>)
    requires forall i :: 0 <= i < |evidence| ==> WellTypedEvidence(evidence[i])
    ensures CanonicalIds(evidence) == SnapshotIds(evidence)
  {
    forall i | 0 <= i < |evidence| ensures CanonicalIds(evidence)[i] == SnapshotIds(evidence)[i] {
      assert WellTypedEvidence(evidence[i]);
      LowerUuidIsCanonical(evidence[i].snapshotId);
    }
  }

  lemma {:induction false} AvailableIsUsable(evidence: seq<Evidence>, metric: Metric)
    requires forall i :: 0 <= i < |evidence| ==> WellTypedEvidence(evidence[i])
    ensures AllAvailable(evidence, metric) <==> AllUsable(evidence, metric)
  {
    forall i | 0 <= i < |evidence|
      ensures ValueOf(evidence[i], metric).Available? <==> Usable(ValueOf(evidence[i], metric))
    {
      assert WellTypedEvidence(evidence[i]);
    }
  }

  lemma {:induction false} PreparedIsPaired(evidence: seq<Evidence>, metric: Metric)
    requires forall i :: 0 <= i < |evidence| ==> WellTypedEvidence(evidence[i])
    requires AllAvailable(evidence, metric)
    ensures UsableValues(evidence, metric) == ValuesOf(PreparedOf(evidence, metric))
    ensures forall i :: 0 <= i < |evidence| ==>
              SnapshotIds(evidence)[i] == PreparedOf(evidence, metric)[i].0 && IsLowerUuid(evidence[i].snapshotId)
  {
    hide IsLowerUuid;
    AvailableIsUsable(evidence, metric);
    UsableValuesAt(evidence, metric);
    forall i | 0 <= i < |evidence|
      ensures SnapshotIds(evidence)[i] == PreparedOf(evidence, metric)[i].0 && IsLowerUuid(evidence[i].snapshotId)
    {
      assert WellTypedEvidence(evidence[i]);
      LowerUuidIsCanonical(evidence[i].snapshotId);
    }
  }

  lemma {:induction false} FirstIdAgrees(
    ids: seq<string>, values: seq<real>, prepared: Prepared, best: real, id: string)
    requires |ids| == |values| == |prepared|
    requires forall i :: 0 <= i < |ids| ==> IsLowerUuid(ids[i]) && prepared[i] == (ids[i], values[i])
    ensures IsFirst(id, BestIds(ids, values, best)) <==>
            CloseIds(prepared, best) != [] && id == LeastText(CloseIds(prepared, best), CodePointBefore)
  {
    hide LeastText, BestIds, CloseIds, IsLowerUuid;
    forall i | 0 <= i < |ids| ensures ids[i] != "" && forall k :: 0 <= k < |ids[i]| ==> ids[i][k] as int < 0xE000 {
      LowerUuidIsCanonical(ids[i]);
    }
    CloseIdsAgree(ids, values, prepared, best);
    if CloseIds(prepared, best) != [] {
      LeastTextAgree(CloseIds(prepared, best));
    }
  }

  lemma {:induction false} PreparedAgree(evidence: seq<Evidence>, c: Comparison)
    requires evidence != [] && (forall i :: 0 <= i < |evidence| ==> WellTypedEvidence(evidence[i]))
    requires IsLowerUuid(c.bestSnapshotId) && AllAvailable(evidence, c.metric)
    ensures ComparisonConsistent(SnapshotIds(evidence), UsableValues(evidence, c.metric), c)
            <==> PreparedMatches(PreparedOf(evidence, c.metric), c)
  {
    hide Median, MaxOf, BestIds, CloseIds, LeastText, IsLowerUuid, IsFirst, UsableValues, CanonicalUuid,
         CodePointBefore;
    var ids, values, prepared := SnapshotIds(evidence), UsableValues(evidence, c.metric),
      PreparedOf(evidence, c.metric);
    TolerancePredicatesAgree();
    LowerUuidIsCanonical(c.bestSnapshotId);
    PreparedIsPaired(evidence, c.metric);
    FirstIdAgrees(ids, values, prepared, MaxOf(values), c.bestSnapshotId);
  }

  /** The two implementations accept the same well-typed requests of three or more items. */
  lemma {:induction false} ImplementationsAgree(r: Request)
    requires WellTyped(r) && |r.evidence| >= REQUIRED_SNAPSHOT_COUNT
    ensures TsAccepts(r) <==> PyAccepts(r)
  {
    hide WellTypedEvidence, PreparedMatches, ComparisonConsistent, Distinct, AllUsable, AllAvailable, IsLowerUuid;
    IdsAgree(r.evidence);
    AvailableIsUsable(r.evidence, PostMediaView);
    AvailableIsUsable(r.evidence, PostClicks);
    if FrozenMetrics(r.comparisons) && AllUsable(r.evidence, PostMediaView) && AllUsable(r.evidence, PostClicks) {
      forall k | 0 <= k < |r.comparisons|
        ensures ConsistentAt(r, k) <==> ComparisonHolds(r.evidence, r.comparisons[k])
      {
        assert AllAvailable(r.evidence, r.comparisons[k].metric);
        PreparedAgree(r.evidence, r.comparisons[k]);
      }
    }
  }
}
