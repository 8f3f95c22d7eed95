/** The three views of a dispatch's assets: what the candidate names, what the signed dispatch
    carries, and what was retrieved (publishing-policy.ts, publishing-asset-integrity.ts). */
module DispatchAssets {
  import opened Collections
  import opened Text
  import opened PublishingCanonical
  import opened JsonText
  import opened Fingerprints
  import opened PublicationCandidate

  datatype AssetCode = AssetUnavailable | AssetTampered

  /** String(v). */
  function AsText(host: Host, v: Value): string {
    match v
    case Str(s) => s
    case Num(n) => Integer(n)
    case _ => host.toText(v)
  }

  function IdOf(host: Host, asset: Value): string {
    AsText(host, Get(asset, "asset_id"))
  }

  /** The candidate's assets by identity; a later asset replaces an earlier one. */
  function CandidateAssetMap(assets: seq<Value>): map<string, Value> {
    if assets == [] then map[]
    else
      var last := assets[|assets| - 1];
      CandidateAssetMap(assets[..|assets| - 1])[TextOf(Get(last, "asset_id")) := last]
  }

  /** Identity, MIME type and digest agree with the candidate. */
  ghost predicate MatchesCandidate(host: Host, candidateAssets: seq<Value>, asset: Value) {
    var id := IdOf(host, asset);
    && id in CandidateAssetMap(candidateAssets)
    && IsDigest(Get(asset, "checksum"))
    && Get(CandidateAssetMap(candidateAssets)[id], "checksum") == Get(asset, "checksum")
    && Get(CandidateAssetMap(candidateAssets)[id], "mime_type") == Get(asset, "mime_type")
  }

  predicate RetrievalOk(host: Host, asset: Value) {
    && IsRequiredText(Get(asset, "retrieval_url")) && host.safeUrl(Get(asset, "retrieval_url").s)
    && IsIsoDateTime(host, Get(asset, "retrieval_expires_at"))
  }

  ghost predicate DispatchAssetOk(host: Host, candidateAssets: seq<Value>, assets: seq<Value>, i: nat)
    requires i < |assets|
  {
    && assets[i].Obj?
    && MatchesCandidate(host, candidateAssets, assets[i])
    && RetrievalOk(host, assets[i])
    && forall j :: 0 <= j < i ==> IdOf(host, assets[j]) != IdOf(host, assets[i])
  }

  ghost predicate DispatchPrefixOk(host: Host, candidateAssets: seq<Value>, assets: seq<Value>, n: nat)
    requires n <= |assets|
  {
    forall i :: 0 <= i < n ==> DispatchAssetOk(host, candidateAssets, assets, i)
  }

  ghost predicate DispatchAssetsOk(host: Host, candidateAssets: seq<Value>, textPost: bool, assets: seq<Value>) {
    && |assets| == |candidateAssets|
    && (textPost || assets != [])
    && DispatchPrefixOk(host, candidateAssets, assets, |assets|)
  }

  /** The identities of the first n entries, leaving out what is not an object. */
  ghost function SeenIds(host: Host, assets: seq<Value>, n: nat): set<string>
    requires n <= |assets|
  {
    set j | 0 <= j < n && assets[j].Obj? :: IdOf(host, assets[j])
  }

  /** As long as the dispatch is good so far, the set of seen identities decides repetition. */
  lemma {:induction false} SeenDecides(host: Host, candidateAssets: seq<Value>, assets: seq<Value>, n: nat)
    requires n < |assets| && DispatchPrefixOk(host, candidateAssets, assets, n)
    ensures IdOf(host, assets[n]) in SeenIds(host, assets, n) <==>
            exists j :: 0 <= j < n && IdOf(host, assets[j]) == IdOf(host, assets[n])
  {
    hide Get;
    if j :| 0 <= j < n && IdOf(host, assets[j]) == IdOf(host, assets[n]) {
      assert DispatchAssetOk(host, candidateAssets, assets, j);
    }
  }

  ghost predicate Tampered(host: Host, candidateAssets: seq<Value>, assets: seq<Value>, i: nat)
    requires i < |assets|
  {
    assets[i].Obj? && (!MatchesCandidate(host, candidateAssets, assets[i])
      || IdOf(host, assets[i]) in SeenIds(host, assets, i))
  }

  predicate Unavailable(host: Host, assets: seq<Value>, i: nat)
    requires i < |assets|
  {
    !assets[i].Obj? || !RetrievalOk(host, assets[i])
  }

  /** Free of both faults means good, as long as everything before is good. */
  lemma {:induction false} FaultFreeIsOk(host: Host, candidateAssets: seq<Value>, assets: seq<Value>, n: nat)
    requires n <= |assets|
    ensures DispatchPrefixOk(host, candidateAssets, assets, n) <==>
            forall i :: 0 <= i < n ==> !Tampered(host, candidateAssets, assets, i) && !Unavailable(host, assets, i)
  {
    hide MatchesCandidate, RetrievalOk, IdOf, SeenIds;
    if n > 0 {
      FaultFreeIsOk(host, candidateAssets, assets, n - 1);
      if DispatchPrefixOk(host, candidateAssets, assets, n - 1) {
        SeenDecides(host, candidateAssets, assets, n - 1);
        assert DispatchAssetOk(host, candidateAssets, assets, n - 1) <==>
               !Tampered(host, candidateAssets, assets, n - 1) && !Unavailable(host, assets, n - 1);
      }
    }
  }

  ghost function FaultAt(host: Host, candidateAssets: seq<Value>, assets: seq<Value>, i: nat): Option<AssetCode>
    requires i < |assets|
  {
    if Tampered(host, candidateAssets, assets, i) then Some(AssetTampered)
    else Unless(!Unavailable(host, assets, i), AssetUnavailable)
  }

  /** The first code among the first n assets. */
  ghost function FirstFault(host: Host, candidateAssets: seq<Value>, assets: seq<Value>, n: nat): Option<AssetCode>
    requires n <= |assets|
  {
    if n == 0 then None
    else
      OrElse(FirstFault(host, candidateAssets, assets, n - 1), FaultAt(host, candidateAssets, assets, n - 1))
  }

  /** The first code the asset checks raise. */
  ghost function AssetIssue(
    host: Host, candidateAssets: seq<Value>, textPost: bool, assets: seq<Value>): Option<AssetCode> {
    if |assets| != |candidateAssets| then Some(AssetTampered)
    else if !textPost && assets == [] then Some(AssetUnavailable)
    else FirstFault(host, candidateAssets, assets, |assets|)
  }

  lemma {:induction false} NoFirstFault(host: Host, candidateAssets: seq<Value>, assets: seq<Value>, n: nat)
    requires n <= |assets|
    ensures FirstFault(host, candidateAssets, assets, n).None? <==>
            forall i :: 0 <= i < n ==> !Tampered(host, candidateAssets, assets, i) && !Unavailable(host, assets, i)
  {
    hide Tampered, Unavailable;
    if n > 0 {
      NoFirstFault(host, candidateAssets, assets, n - 1);
    }
  }

  /** No code means a good dispatch. */
  lemma {:induction false} AssetIssueDecides(
    host: Host, candidateAssets: seq<Value>, textPost: bool, assets: seq<Value>)
    ensures AssetIssue(host, candidateAssets, textPost, assets).None? <==>
            DispatchAssetsOk(host, candidateAssets, textPost, assets)
  {
    hide Tampered, Unavailable, DispatchPrefixOk, FirstFault;
    NoFirstFault(host, candidateAssets, assets, |assets|);
    FaultFreeIsOk(host, candidateAssets, assets, |assets|);
  }

  method IndexCandidateAssets(candidateAssets: seq<Value>) returns (byId: map<string, Value>)
    ensures byId == CandidateAssetMap(candidateAssets)
  {
    byId := map[];
    for i := 0 to |candidateAssets|
      invariant byId == CandidateAssetMap(candidateAssets[..i])
    {
      assert candidateAssets[..i + 1][..i] == candidateAssets[..i];
      byId := byId[TextOf(Get(candidateAssets[i], "asset_id")) := candidateAssets[i]];
    }
    assert candidateAssets[..|candidateAssets|] == candidateAssets;
  }

  /** One dispatch asset against the map and the identities seen so far. */
  method CheckDispatchAsset(
    host: Host, ghost candidateAssets: seq<Value>, byId: map<string, Value>, seen: set<string>, asset: Value)
    returns (issues: seq<AssetCode>)
    requires byId == CandidateAssetMap(candidateAssets) && asset.Obj?
    ensures AssetTampered in issues <==> !MatchesCandidate(host, candidateAssets, asset) || IdOf(host, asset) in seen
    ensures AssetUnavailable in issues <==> !RetrievalOk(host, asset)
    ensures First(issues) == if !MatchesCandidate(host, candidateAssets, asset) || IdOf(host, asset) in seen then
            Some(AssetTampered)
                             else Unless(RetrievalOk(host, asset), AssetUnavailable)
  {
    hide Get, CandidateAssetMap, IsNonEmptyText, IsSha256;
    issues := [];
    var id := IdOf(host, asset);
    if id !in byId
       || id in seen
       || !IsDigest(Get(asset, "checksum"))
       || Get(byId[id], "checksum") != Get(asset, "checksum")
       || Get(byId[id], "mime_type") != Get(asset, "mime_type")
    {
      issues := issues + [AssetTampered];
    }
    var url, expiry := Get(asset, "retrieval_url"), Get(asset, "retrieval_expires_at");
    if || !url.Str? || !IsNonEmptyText(url.s) || !host.safeUrl(url.s)
       || !expiry.Str? || !IsNonEmptyText(expiry.s) || host.dateParse(expiry.s) == None {
      issues := issues + [AssetUnavailable];
    }
  }

  lemma {:induction false} SeenGrows(host: Host, assets: seq<Value>, i: nat)
    requires i < |assets|
    ensures SeenIds(host, assets, i + 1) == SeenIds(host, assets, i) + (if assets[i].Obj? then {IdOf(host, assets[i])}
            else {})
  {
    hide IdOf;
  }

  /** One turn of the loop over the dispatch's assets. */
  method CheckAssetAt(host: Host, ghost candidateAssets: seq<Value>, byId: map<string, Value>, seen: set<string>,
                      assets: seq<Value>, i: nat)
    returns (issues: seq<AssetCode>, seen': set<string>)
    requires byId == CandidateAssetMap(candidateAssets) && i < |assets| && seen == SeenIds(host, assets, i)
    ensures seen' == SeenIds(host, assets, i + 1)
    ensures AssetTampered in issues <==> Tampered(host, candidateAssets, assets, i)
    ensures AssetUnavailable in issues <==> Unavailable(host, assets, i)
    ensures First(issues) == FaultAt(host, candidateAssets, assets, i)
  {
    hide MatchesCandidate, RetrievalOk, IdOf, SeenIds, CandidateAssetMap;
    SeenGrows(host, assets, i);
    if !assets[i].Obj? {
      return [AssetUnavailable], seen;
    }
    issues := CheckDispatchAsset(host, candidateAssets, byId, seen, assets[i]);
    seen' := seen + {IdOf(host, assets[i])};
  }

  /** The asset part of validateDispatchBody: which codes it raises, which comes first, and that it
      raises none exactly on a good dispatch. What is not an object is reported but its identity is not
      remembered. */
  method CheckDispatchAssets(host: Host, candidateAssets: seq<Value>, textPost: bool, assets: seq<Value>)
    returns (issues: seq<AssetCode>)
    ensures issues == [] <==> DispatchAssetsOk(host, candidateAssets, textPost, assets)
    ensures AssetTampered in issues <==>
            |assets| != |candidateAssets| || exists i :: 0 <= i < |assets| && Tampered(host, candidateAssets, assets, i)
    ensures AssetUnavailable in issues <==>
            (!textPost && assets == []) || exists i :: 0 <= i < |assets| && Unavailable(host, assets, i)
    ensures First(issues) == AssetIssue(host, candidateAssets, textPost, assets)
  {
    hide CandidateAssetMap, Tampered, Unavailable, FaultAt, DispatchAssetsOk, SeenIds;
    issues := [];
    var byId := IndexCandidateAssets(candidateAssets);
    var seen: set<string> := {};
    if |assets| != |candidateAssets| {
      issues := issues + [AssetTampered];
    }
    if !textPost && |assets| == 0 {
      issues := issues + [AssetUnavailable];
    }
    ghost var start := First(issues);
    assert seen == SeenIds(host, assets, 0) by { NothingSeen(host, assets); }
    for i := 0 to |assets|
      invariant AssetTampered in issues <==>
                |assets| != |candidateAssets| || exists j :: 0 <= j < i && Tampered(host, candidateAssets, assets, j)
      invariant AssetUnavailable in issues <==>
                (!textPost && assets == []) || exists j :: 0 <= j < i && Unavailable(host, assets, j)
      invariant First(issues) == OrElse(start, FirstFault(host, candidateAssets, assets, i))
      invariant seen == SeenIds(host, assets, i)
    {
      var found, more := CheckAssetAt(host, candidateAssets, byId, seen, assets, i);
      issues := issues + found;
      seen := more;
    }
    AssetIssueDecides(host, candidateAssets, textPost, assets);
  }

  lemma {:induction false} NothingSeen(host: Host, assets: seq<Value>)
    ensures SeenIds(host, assets, 0) == {}
  {
  }

  // ----- Retrieved bytes -----

  datatype Retrieved = Malformed | Retrieved(assetId: string, mimeType: string, bytes: Bytes)

  predicate IsUsable(r: Retrieved) {
    r.Retrieved? && r.bytes != []
  }

  ghost predicate RetrievedUnique(retrieved: seq<Retrieved>) {
    && (forall i :: 0 <= i < |retrieved| ==> IsUsable(retrieved[i]))
    && (forall i, j :: 0 <= i < j < |retrieved| ==> retrieved[i].assetId != retrieved[j].assetId)
  }

  /** isPublicationAssetChecksumValid. */
  predicate ChecksumValid(host: Host, bytes: Bytes, expected: string) {
    IsSha256(expected) && host.sha256Bytes(bytes) == expected
  }

  ghost predicate RetrievedFor(host: Host, asset: Value, r: Retrieved) {
    && r.Retrieved? && asset.Obj? && Get(asset, "asset_id") == Str(r.assetId)
    && Get(asset, "mime_type") == Str(r.mimeType)
    && Get(asset, "checksum").Str? && ChecksumValid(host, r.bytes, Get(asset, "checksum").s)
  }

  ghost predicate RetrievedAssetsOk(host: Host, assets: seq<Value>, retrieved: seq<Retrieved>) {
    && RetrievedUnique(retrieved)
    && |retrieved| == |assets|
    && forall i :: 0 <= i < |assets| ==> exists j :: 0 <= j < |retrieved| && RetrievedFor(host, assets[i], retrieved[j])
  }

  /** The first usable entry with this identity. */
  ghost function FirstUsable(retrieved: seq<Retrieved>, id: string): Option<Retrieved> {
    if retrieved == [] then None
    else
      var last := retrieved[|retrieved| - 1];
      OrElse(FirstUsable(retrieved[..|retrieved| - 1], id),
             if IsUsable(last) && last.assetId == id then Some(last) else None)
  }

  lemma {:induction false} FirstUsableMeans(retrieved: seq<Retrieved>, id: string) returns (i: nat)
    ensures FirstUsable(retrieved, id).None? ==>
              forall j :: 0 <= j < |retrieved| ==> !(IsUsable(retrieved[j]) && retrieved[j].assetId == id)
    ensures FirstUsable(retrieved, id).Some? ==>
              && i < |retrieved| && FirstUsable(retrieved, id).value == retrieved[i]
              && IsUsable(retrieved[i]) && retrieved[i].assetId == id
              && forall j :: 0 <= j < i ==> !(IsUsable(retrieved[j]) && retrieved[j].assetId == id)
  {
    i := 0;
    if retrieved != [] {
      var n := |retrieved| - 1;
      i := FirstUsableMeans(retrieved[..n], id);
      assert forall j :: 0 <= j < n ==> retrieved[..n][j] == retrieved[j];
      if FirstUsable(retrieved[..n], id).None? {
        i := n;
      }
    }
  }

  ghost function UsableIds(retrieved: seq<Retrieved>): set<string> {
    set r | r in retrieved && IsUsable(r) :: r.assetId
  }

  /** Entry j has the identity of an earlier one. */
  ghost predicate Repeats(retrieved: seq<Retrieved>, j: nat)
    requires j < |retrieved|
  {
    IsUsable(retrieved[j]) && FirstUsable(retrieved[..j], retrieved[j].assetId).Some?
  }

  /** The map finds what the list has, under every identity. */
  ghost predicate Indexes(byId: map<string, Retrieved>, retrieved: seq<Retrieved>) {
    && byId.Keys == UsableIds(retrieved)
    && forall id :: FirstUsable(retrieved, id) == if id in byId then Some(byId[id]) else None
  }

  lemma {:induction false} IndexStep(byId: map<string, Retrieved>, before: seq<Retrieved>, r: Retrieved)
    requires Indexes(byId, before)
    ensures !IsUsable(r) || r.assetId in byId ==> Indexes(byId, before + [r])
    ensures IsUsable(r) && r.assetId !in byId ==> Indexes(byId[r.assetId := r], before + [r])
  {
    assert (before + [r])[..|before|] == before;
    assert UsableIds(before + [r]) == UsableIds(before) + (if IsUsable(r) then {r.assetId} else {});
    forall id ensures FirstUsable(before + [r], id)
                      == OrElse(FirstUsable(before, id), if IsUsable(r) && r.assetId == id then Some(r) else None) {
    }
  }

  /** The map of the first usable entry of each identity: unusable entries are unavailable, later ones of one
      identity tampered with. */
  method IndexRetrieved(retrieved: seq<Retrieved>) returns (byId: map<string, Retrieved>, issues: seq<AssetCode>)
    ensures Indexes(byId, retrieved)
    ensures AssetUnavailable in issues <==> exists j :: 0 <= j < |retrieved| && !IsUsable(retrieved[j])
    ensures AssetTampered in issues <==> exists j :: 0 <= j < |retrieved| && Repeats(retrieved, j)
  {
    hide FirstUsable;
    byId, issues := map[], [];
    assert Indexes(byId, []) by { NothingIndexed(); }
    for i := 0 to |retrieved|
      invariant Indexes(byId, retrieved[..i])
      invariant AssetUnavailable in issues <==> exists j :: 0 <= j < i && !IsUsable(retrieved[j])
      invariant AssetTampered in issues <==> exists j :: 0 <= j < i && Repeats(retrieved, j)
    {
      var r := retrieved[i];
      assert retrieved[..i + 1] == retrieved[..i] + [r];
      IndexStep(byId, retrieved[..i], r);
      assert Repeats(retrieved, i) <==> IsUsable(r) && r.assetId in byId;
      if r.Malformed? || |r.bytes| == 0 {
        issues := issues + [AssetUnavailable];
      } else if r.assetId in byId {
        issues := issues + [AssetTampered];
      } else {
        byId := byId[r.assetId := r];
      }
    }
    assert retrieved[..|retrieved|] == retrieved;
  }

  lemma {:induction false} NothingIndexed()
    ensures Indexes(map[], [])
  {
  }

  predicate MetadataOk(asset: Value) {
    asset.Obj? && Get(asset, "asset_id").Str? && Get(asset, "mime_type").Str? && IsDigest(Get(asset, "checksum"))
  }

  /** The signed entry is malformed, or what was retrieved for it has another type or digest. */
  ghost predicate Damaged(host: Host, asset: Value, retrieved: seq<Retrieved>) {
    || !MetadataOk(asset)
    || exists r :: FirstUsable(retrieved, Get(asset, "asset_id").s) == Some(r) && !RetrievedFor(host, asset, r)
  }

  ghost predicate NotRetrieved(asset: Value, retrieved: seq<Retrieved>) {
    MetadataOk(asset) && FirstUsable(retrieved, Get(asset, "asset_id").s).None?
  }

  ghost predicate SomeTampered(host: Host, assets: seq<Value>, retrieved: seq<Retrieved>) {
    || (exists j :: 0 <= j < |retrieved| && Repeats(retrieved, j))
    || (exists i :: 0 <= i < |assets| && Damaged(host, assets[i], retrieved))
  }

  ghost predicate SomeUnavailable(assets: seq<Value>, retrieved: seq<Retrieved>) {
    || (exists j :: 0 <= j < |retrieved| && !IsUsable(retrieved[j]))
    || |UsableIds(retrieved)| != |assets|
    || (exists i :: 0 <= i < |assets| && NotRetrieved(assets[i], retrieved))
  }

  /** One signed asset against the map. */
  method CheckRetrieved(
    host: Host, byId: map<string, Retrieved>, ghost retrieved: seq<Retrieved>, asset: Value)
    returns (issues: seq<AssetCode>)
    requires Indexes(byId, retrieved)
    ensures AssetTampered in issues <==> Damaged(host, asset, retrieved)
    ensures AssetUnavailable in issues <==> NotRetrieved(asset, retrieved)
  {
    hide Get, FirstUsable, UsableIds, IsSha256;
    issues := [];
    var id, mimeType, checksum := Get(asset, "asset_id"), Get(asset, "mime_type"), Get(asset, "checksum");
    if !asset.Obj? || !id.Str? || !mimeType.Str? || !checksum.Str? || !IsSha256(checksum.s) {
      return [AssetTampered];
    }
    if id.s !in byId {
      return [AssetUnavailable];
    }
    var r := byId[id.s];
    assert r.Retrieved? && r.assetId == id.s by { var i := FirstUsableMeans(retrieved, id.s); }
    assert FirstUsable(retrieved, id.s) == Some(r);
    if Str(r.mimeType) != mimeType {
      issues := issues + [AssetTampered];
    }
    if !ChecksumValid(host, r.bytes, checksum.s) {
      issues := issues + [AssetTampered];
    }
  }

  /** validateRetrievedPublicationAssetsV1: which codes it raises, and that it raises none exactly on a usable,
      distinct and matching retrieval. */
  method ValidateRetrievedPublicationAssets(host: Host, assets: seq<Value>, retrieved: seq<Retrieved>)
    returns (issues: seq<AssetCode>)
    ensures issues == [] <==> RetrievedAssetsOk(host, assets, retrieved)
    ensures AssetTampered in issues <==> SomeTampered(host, assets, retrieved)
    ensures AssetUnavailable in issues <==> SomeUnavailable(assets, retrieved)
  {
    hide Repeats, Damaged, NotRetrieved, RetrievedAssetsOk, FirstUsable;
    var byId, indexIssues := IndexRetrieved(retrieved);
    issues := indexIssues;
    if |byId| != |assets| {
      issues := issues + [AssetUnavailable];
    }
    assert |byId| == |UsableIds(retrieved)|;
    for i := 0 to |assets|
      invariant AssetTampered in issues <==>
                || (exists j :: 0 <= j < |retrieved| && Repeats(retrieved, j))
                || (exists k :: 0 <= k < i && Damaged(host, assets[k], retrieved))
      invariant AssetUnavailable in issues <==>
                || (exists j :: 0 <= j < |retrieved| && !IsUsable(retrieved[j]))
                || |UsableIds(retrieved)| != |assets|
                || (exists k :: 0 <= k < i && NotRetrieved(assets[k], retrieved))
    {
      var found := CheckRetrieved(host, byId, retrieved, assets[i]);
      issues := issues + found;
    }
    RetrievalFaultFree(host, assets, retrieved);
    NoCodeNoIssue(issues);
  }

  lemma {:induction false} NoCodeNoIssue(issues: seq<AssetCode>)
    ensures issues == [] <==> AssetTampered !in issues && AssetUnavailable !in issues
  {
    if issues != [] {
      match issues[0]
      case AssetTampered => assert issues[0] in issues;
      case AssetUnavailable => assert issues[0] in issues;
    }
  }

  /** Nothing tampered with and nothing unavailable is a good retrieval. */
  lemma {:induction false} RetrievalFaultFree(host: Host, assets: seq<Value>, retrieved: seq<Retrieved>)
    ensures RetrievedAssetsOk(host, assets, retrieved) <==>
            !SomeTampered(host, assets, retrieved) && !SomeUnavailable(assets, retrieved)
  {
    hide Get, FirstUsable, Repeats, UsableIds, RetrievedFor, IsDigest;
    if forall j :: 0 <= j < |retrieved| ==> IsUsable(retrieved[j]) {
      UniqueIffNoRepeat(retrieved);
      if RetrievedUnique(retrieved) {
        forall i | 0 <= i < |assets|
          ensures (exists j :: 0 <= j < |retrieved| && RetrievedFor(host, assets[i], retrieved[j])) <==>
                  !Damaged(host, assets[i], retrieved) && !NotRetrieved(assets[i], retrieved)
        {
          FoundIffUndamaged(host, assets[i], retrieved);
        }
        hide Damaged, NotRetrieved;
        AllFound(host, assets, retrieved);
      }
    }
  }

  lemma {:induction false} AllFound(host: Host, assets: seq<Value>, retrieved: seq<Retrieved>)
    requires RetrievedUnique(retrieved) && |UsableIds(retrieved)| == |retrieved|
    requires forall j :: 0 <= j < |retrieved| ==> !Repeats(retrieved, j)
    requires forall i :: 0 <= i < |assets| ==>
               ((exists j :: 0 <= j < |retrieved| && RetrievedFor(host, assets[i], retrieved[j])) <==>
                !Damaged(host, assets[i], retrieved) && !NotRetrieved(assets[i], retrieved))
    ensures RetrievedAssetsOk(host, assets, retrieved) <==>
            !SomeTampered(host, assets, retrieved) && !SomeUnavailable(assets, retrieved)
  {
    hide Repeats, Damaged, NotRetrieved, UsableIds, RetrievedFor, IsUsable, RetrievedUnique;
    assert forall j :: 0 <= j < |retrieved| ==> IsUsable(retrieved[j]) by { AllUsable(retrieved); }
  }

  lemma {:induction false} AllUsable(retrieved: seq<Retrieved>)
    requires RetrievedUnique(retrieved)
    ensures forall j :: 0 <= j < |retrieved| ==> IsUsable(retrieved[j])
  {
  }

  lemma {:induction false} UniqueIffNoRepeat(retrieved: seq<Retrieved>)
    requires forall j :: 0 <= j < |retrieved| ==> IsUsable(retrieved[j])
    ensures RetrievedUnique(retrieved) <==> forall j :: 0 <= j < |retrieved| ==> !Repeats(retrieved, j)
    ensures RetrievedUnique(retrieved) ==> |UsableIds(retrieved)| == |retrieved|
  {
    hide FirstUsable;
    forall j | 0 <= j < |retrieved|
      ensures Repeats(retrieved, j) <==> exists i :: 0 <= i < j && retrieved[i].assetId == retrieved[j].assetId
    {
      var i := FirstUsableMeans(retrieved[..j], retrieved[j].assetId);
      assert forall k :: 0 <= k < j ==> retrieved[..j][k] == retrieved[k];
    }
    if RetrievedUnique(retrieved) {
      var ids := seq(|retrieved|, i requires 0 <= i < |retrieved| => retrieved[i].assetId);
      SetSize(ids);
      assert (set id | id in ids) == UsableIds(retrieved) by {
        forall r | r in retrieved ensures r.assetId in ids {
          var i :| 0 <= i < |retrieved| && retrieved[i] == r;
          assert ids[i] == r.assetId;
        }
      }
    }
  }

  lemma {:induction false} FoundIffUndamaged(host: Host, asset: Value, retrieved: seq<Retrieved>)
    requires RetrievedUnique(retrieved)
    ensures (exists j :: 0 <= j < |retrieved| && RetrievedFor(host, asset, retrieved[j])) <==>
            !Damaged(host, asset, retrieved) && !NotRetrieved(asset, retrieved)
  {
    hide Get, FirstUsable;
    if MetadataOk(asset) {
      var i := FirstUsableMeans(retrieved, Get(asset, "asset_id").s);
    }
  }

  // ----- One-to-one correspondence -----

  datatype AssetKey = AssetKey(id: string, mimeType: Value, checksum: Value)

  function CandidateKeys(assets: seq<Value>): seq<AssetKey> {
    seq(|assets|, i requires 0 <= i < |assets| =>
      AssetKey(TextOf(Get(assets[i], "asset_id")), Get(assets[i], "mime_type"), Get(assets[i], "checksum")))
  }

  function DispatchKeys(host: Host, assets: seq<Value>): seq<AssetKey> {
    seq(|assets|, i requires 0 <= i < |assets| =>
      AssetKey(IdOf(host, assets[i]), Get(assets[i], "mime_type"), Get(assets[i], "checksum")))
  }

  function RetrievedKeys(host: Host, retrieved: seq<Retrieved>): seq<AssetKey>
    requires forall i :: 0 <= i < |retrieved| ==> retrieved[i].Retrieved?
  {
    seq(|retrieved|, i requires 0 <= i < |retrieved| =>
      AssetKey(retrieved[i].assetId, Str(retrieved[i].mimeType), Str(host.sha256Bytes(retrieved[i].bytes))))
  }

  ghost predicate DistinctIds(keys: seq<AssetKey>) {
    forall i, j :: 0 <= i < j < |keys| ==> keys[i].id != keys[j].id
  }

  /** Pigeonhole: as many distinct identities as there are entries use every entry up. */
  lemma {:induction false} DistinctSameLength(xs: seq<AssetKey>, ys: seq<AssetKey>)
    requires DistinctIds(xs) && |xs| == |ys|
    requires forall x :: x in xs ==> x in ys
    ensures multiset(xs) == multiset(ys) && DistinctIds(ys)
  {
    Pigeonhole(xs, ys);
    forall i, j | 0 <= i < j < |ys| ensures ys[i].id != ys[j].id {
      assert ys[i] in multiset(xs) && ys[j] in multiset(xs);
      var a :| 0 <= a < |xs| && xs[a] == ys[i];
      var b :| 0 <= b < |xs| && xs[b] == ys[j];
      assert a != b;
    }
  }

  lemma {:induction false} CandidateAssetMapHolds(assets: seq<Value>, id: string)
    requires id in CandidateAssetMap(assets)
    ensures exists i ::
            0 <= i < |assets| && assets[i] == CandidateAssetMap(assets)[id]
            && TextOf(Get(assets[i], "asset_id")) == id
  {
    var n := |assets| - 1;
    if TextOf(Get(assets[n], "asset_id")) != id {
      CandidateAssetMapHolds(assets[..n], id);
      var i :| 0 <= i < n && assets[..n][i] == CandidateAssetMap(assets[..n])[id]
        && TextOf(Get(assets[..n][i], "asset_id")) == id;
      assert assets[i] == assets[..n][i];
    }
  }

  /** An accepted dispatch lists the candidate's assets one to one, so the candidate's identities
      are distinct, which nothing checks directly. */
  lemma {:induction false} DispatchMatchesCandidate(
    host: Host, candidateAssets: seq<Value>, textPost: bool, assets: seq<Value>)
    requires DispatchAssetsOk(host, candidateAssets, textPost, assets)
    ensures multiset(DispatchKeys(host, assets)) == multiset(CandidateKeys(candidateAssets))
    ensures DistinctIds(CandidateKeys(candidateAssets)) && DistinctIds(DispatchKeys(host, assets))
  {
    var xs, ys := DispatchKeys(host, assets), CandidateKeys(candidateAssets);
    forall i, j | 0 <= i < j < |xs| ensures xs[i].id != xs[j].id {
      assert xs[i].id == IdOf(host, assets[i]);
      assert DispatchAssetOk(host, candidateAssets, assets, j);
    }
    forall x | x in xs ensures x in ys {
      var i :| 0 <= i < |xs| && xs[i] == x;
      assert DispatchAssetOk(host, candidateAssets, assets, i);
      CandidateAssetMapHolds(candidateAssets, x.id);
      var c :| 0 <= c < |candidateAssets| && candidateAssets[c] == CandidateAssetMap(candidateAssets)[x.id]
               && TextOf(Get(candidateAssets[c], "asset_id")) == x.id;
      assert ys[c] == x;
    }
    DistinctSameLength(xs, ys);
  }

  /** Candidate, dispatch and retrieved bytes agree one to one on identity, MIME type and digest. */
  lemma {:induction false} AssetsCorrespond(
    host: Host, candidateAssets: seq<Value>, textPost: bool, assets: seq<Value>, retrieved: seq<Retrieved>)
    requires DispatchAssetsOk(host, candidateAssets, textPost, assets)
    requires RetrievedAssetsOk(host, assets, retrieved)
    ensures multiset(RetrievedKeys(host, retrieved)) == multiset(DispatchKeys(host,
            assets)) == multiset(CandidateKeys(candidateAssets))
    ensures DistinctIds(CandidateKeys(candidateAssets)) && DistinctIds(RetrievedKeys(host, retrieved))
  {
    DispatchMatchesCandidate(host, candidateAssets, textPost, assets);
    var xs, zs := DispatchKeys(host, assets), RetrievedKeys(host, retrieved);
    forall x | x in xs ensures x in zs {
      var i :| 0 <= i < |xs| && xs[i] == x;
      var j :| 0 <= j < |retrieved| && RetrievedFor(host, assets[i], retrieved[j]);
      assert zs[j] == x;
    }
    DistinctSameLength(xs, zs);
  }
}
