/** The object-store driver, R2AssetStorage (storage.py): keys are write-once, extensions are not checked
    against each other. */
module ObjectStorage {
  import opened Text
  import opened Fingerprints
  import opened AssetStorage

  /** R2AssetStorage._store_sync: a put that fails when the key exists, and then a comparison with what
      is there, which is read only under a key that resolves inside the root. */
  function R2Store(
    host: Host, inside: string -> bool, bucket: map<string, Bytes>, c: StoreCall): (map<string, Bytes>, StoreResult) {
    var extension := ExtensionOf(c.mimeType);
    if c.data == [] then (bucket, Raises(EmptyBytes))
    else if extension.None? then (bucket, Raises(UnsupportedMimeType))
    else
      var key := StorageKey(PREFIX, c.assetId, extension.value);
      var stored := Stores(StoredFor(host, key, c));
      if key !in bucket then (bucket[key := c.data], stored)
      else if !inside(key) then (bucket, Raises(PathEscaped))
      else if bucket[key] != c.data then (bucket, Raises(DifferentBytes))
      else (bucket, stored)
  }

  /** R2AssetStorage, with the bucket as its field. */
  class R2AssetStorage {
    const inside: string -> bool
    var bucket: map<string, Bytes>

    constructor (inside: string -> bool)
      ensures bucket == map[] && this.inside == inside
    {
      this.inside, this.bucket := inside, map[];
    }

    /** put_object with IfNoneMatch="*"; false is the failed precondition. */
    method PutObject(key: string, body: Bytes) returns (created: bool)
      modifies this`bucket
      ensures created <==> key !in old(bucket)
      ensures bucket == if created then old(bucket)[key := body] else old(bucket)
    {
      created := key !in bucket;
      if created {
        bucket := bucket[key := body];
      }
    }

    /** _retrieve_sync. */
    method Retrieve(storageKey: string) returns (r: RetrieveResult)
      ensures r == if !inside(storageKey) then Escaped
                   else if storageKey in bucket then Retrieved(bucket[storageKey]) else NotFound
    {
      if !inside(storageKey) {
        return Escaped;
      }
      if storageKey !in bucket {
        return NotFound;
      }
      return Retrieved(bucket[storageKey]);
    }

    method Store(host: Host, c: StoreCall) returns (r: StoreResult)
      modifies this`bucket
      ensures (bucket, r) == R2Store(host, inside, old(bucket), c)
    {
      hide StorageKey, ExtensionOf;
      if |c.data| == 0 {
        return Raises(EmptyBytes);
      }
      var extension := ExtensionOf(c.mimeType);
      if extension.None? {
        return Raises(UnsupportedMimeType);
      }
      var key := StorageKey(PREFIX, c.assetId, extension.value);
      var checksum := host.sha256Bytes(c.data);
      var created := PutObject(key, c.data);
      if !created {
        var existing := Retrieve(key);
        match existing {
          case Escaped => return Raises(PathEscaped);
          case NotFound => assert false;
          case Retrieved(bytes) =>
            if bytes != c.data {
              return Raises(DifferentBytes);
            }
        }
      }
      return Stores(StoredAsset(key, checksum, c.mimeType, c.width, c.height));
    }
  }

  // ----- Runs -----

  function BucketAfter(host: Host, inside: string -> bool, calls: seq<StoreCall>, n: nat): map<string, Bytes>
    requires n <= |calls|
  {
    if n == 0 then map[] else R2Store(host, inside, BucketAfter(host, inside, calls, n - 1), calls[n - 1]).0
  }

  function R2Result(host: Host, inside: string -> bool, calls: seq<StoreCall>, i: nat): StoreResult
    requires i < |calls|
  {
    R2Store(host, inside, BucketAfter(host, inside, calls, i), calls[i]).1
  }

  /** Call i succeeded under extension e. */
  ghost predicate Succeeds(
    host: Host, inside: string -> bool, calls: seq<StoreCall>, i: int, id: string, e: Extension) {
    && 0 <= i < |calls|
    && R2Result(host, inside, calls, i).Stores?
    && calls[i].assetId == id
    && ExtensionOf(calls[i].mimeType) == Some(e)
  }

  lemma {:induction false} KeyStays(
    host: Host, inside: string -> bool, calls: seq<StoreCall>, i: nat, n: nat, key: string)
    requires i <= n <= |calls| && key in BucketAfter(host, inside, calls, i)
    ensures key in BucketAfter(host, inside, calls, n)
    ensures BucketAfter(host, inside, calls, n)[key] == BucketAfter(host, inside, calls, i)[key]
    decreases n
  {
    hide StorageKey, ExtensionOf;
    if i < n {
      KeyStays(host, inside, calls, i, n - 1, key);
    }
  }

  /** Over any run of the object store, what a successful call stored stays at its key. */
  lemma {:induction false} R2WriteOnce(host: Host, inside: string -> bool, calls: seq<StoreCall>, i: nat, n: nat)
    requires i < n <= |calls| && R2Result(host, inside, calls, i).Stores?
    ensures var key := R2Result(host, inside, calls, i).asset.storageKey;
            key in BucketAfter(host, inside, calls, n) && BucketAfter(host, inside, calls, n)[key] == calls[i].data
  {
    hide StorageKey, ExtensionOf;
    KeyStays(host, inside, calls, i + 1, n, R2Result(host, inside, calls, i).asset.storageKey);
  }

  /** What is in the bucket was put there by a successful call. */
  lemma {:induction false} KeyHasSuccess(
    host: Host, inside: string -> bool, calls: seq<StoreCall>, n: nat, id: string, e: Extension) returns (i: nat)
    requires n <= |calls| && StorageKey(PREFIX, id, e) in BucketAfter(host, inside, calls, n)
    ensures i < n && Succeeds(host, inside, calls, i, id, e)
  {
    hide StorageKey, ExtensionOf;
    if StorageKey(PREFIX, id, e) in BucketAfter(host, inside, calls, n - 1) {
      i := KeyHasSuccess(host, inside, calls, n - 1, id, e);
    } else {
      i := n - 1;
      StorageKeyInjective(PREFIX, id, e, calls[i].assetId, ExtensionOf(calls[i].mimeType).value);
    }
  }

  ghost predicate OneExtensionPerAsset(prefix: string, bucket: map<string, Bytes>) {
    forall id, e, e' :: StorageKey(prefix, id, e) in bucket && StorageKey(prefix, id, e') in bucket ==> e == e'
  }

  /** A call that asks to store something under an extension. */
  predicate Asks(c: StoreCall) {
    c.data != [] && ExtensionOf(c.mimeType).Some?
  }

  /** No two requests share an asset and differ in extension. */
  ghost predicate RequestsAgree(calls: seq<StoreCall>) {
    forall i, j :: 0 <= i < |calls| && 0 <= j < |calls| && Asks(calls[i]) && Asks(calls[j])
      && calls[i].assetId == calls[j].assetId
      ==> ExtensionOf(calls[i].mimeType) == ExtensionOf(calls[j].mimeType)
  }

  /** Every request leaves its key in the bucket, its own bytes there or not. */
  lemma {:induction false} RequestTakesKey(host: Host, inside: string -> bool, calls: seq<StoreCall>, i: nat, n: nat)
    requires i < n <= |calls| && Asks(calls[i])
    ensures StorageKey(PREFIX, calls[i].assetId, ExtensionOf(calls[i].mimeType).value) in BucketAfter(host, inside,
            calls, n)
  {
    hide StorageKey, ExtensionOf;
    var key := StorageKey(PREFIX, calls[i].assetId, ExtensionOf(calls[i].mimeType).value);
    assert key in BucketAfter(host, inside, calls, i + 1);
    KeyStays(host, inside, calls, i + 1, n, key);
  }

  lemma {:induction false} SuccessAsked(
    host: Host, inside: string -> bool, calls: seq<StoreCall>, i: int, id: string, e: Extension)
    requires Succeeds(host, inside, calls, i, id, e)
    ensures 0 <= i < |calls| && Asks(calls[i]) && calls[i].assetId == id && ExtensionOf(calls[i].mimeType) == Some(e)
  {
    hide StorageKey, ExtensionOf;
  }

  /** When the object store keeps one extension per asset: over any run from an empty bucket, if and only
      if no two of the requests share an asset and differ in extension. */
  lemma {:induction false} OneExtensionIffRequestsAgree(host: Host, inside: string -> bool, calls: seq<StoreCall>)
    ensures OneExtensionPerAsset(PREFIX, BucketAfter(host, inside, calls, |calls|)) <==> RequestsAgree(calls)
  {
    hide StorageKey, ExtensionOf, BucketAfter, Succeeds, Asks;
    var bucket := BucketAfter(host, inside, calls, |calls|);
    if OneExtensionPerAsset(PREFIX, bucket) {
      forall i, j | 0 <= i < |calls| && 0 <= j < |calls| && Asks(calls[i]) && Asks(calls[j])
        && calls[i].assetId == calls[j].assetId
        ensures ExtensionOf(calls[i].mimeType) == ExtensionOf(calls[j].mimeType)
      {
        AsksExtension(calls[i]);
        AsksExtension(calls[j]);
        RequestTakesKey(host, inside, calls, i, |calls|);
        RequestTakesKey(host, inside, calls, j, |calls|);
      }
    }
    if RequestsAgree(calls) {
      forall id, e, e' | StorageKey(PREFIX, id, e) in bucket && StorageKey(PREFIX, id, e') in bucket ensures e == e' {
        var i := KeyHasSuccess(host, inside, calls, |calls|, id, e);
        var j := KeyHasSuccess(host, inside, calls, |calls|, id, e');
        SuccessAsked(host, inside, calls, i, id, e);
        SuccessAsked(host, inside, calls, j, id, e');
      }
    }
  }

  lemma {:induction false} AsksExtension(c: StoreCall)
    requires Asks(c)
    ensures ExtensionOf(c.mimeType).Some?
  {
    hide ExtensionOf;
  }

  /** It need not: for every asset and all non-empty bytes, two calls with different extensions both
      succeed, and no write-once map represents the bucket they leave. */
  lemma {:induction false} TwoExtensionsBothSucceed(
    host: Host, inside: string -> bool, first: StoreCall, second: StoreCall)
    requires first.assetId == second.assetId && first.data != [] && second.data != []
    requires ExtensionOf(first.mimeType).Some? && ExtensionOf(second.mimeType).Some?
    requires ExtensionOf(first.mimeType) != ExtensionOf(second.mimeType)
    ensures R2Result(host, inside, [first, second], 0).Stores? && R2Result(host, inside, [first, second], 1).Stores?
    ensures !OneExtensionPerAsset(PREFIX, BucketAfter(host, inside, [first, second], 2))
    ensures !exists m :: Represents(BucketAfter(host, inside, [first, second], 2), PREFIX, m)
  {
    hide StorageKey, ExtensionOf;
    var calls := [first, second];
    var id, e, e' := first.assetId, ExtensionOf(first.mimeType).value, ExtensionOf(second.mimeType).value;
    var k, k' := StorageKey(PREFIX, id, e), StorageKey(PREFIX, id, e');
    if k == k' {
      StorageKeyInjective(PREFIX, id, e, id, e');
    }
    assert BucketAfter(host, inside, calls, 0) == map[];
    assert BucketAfter(host, inside, calls, 1) == map[k := first.data];
    assert BucketAfter(host, inside, calls, 2) == map[k := first.data, k' := second.data];
    forall m | Represents(BucketAfter(host, inside, calls, 2), PREFIX, m) ensures false {
      RepresentsLookup(BucketAfter(host, inside, calls, 2), PREFIX, m, id, e);
      RepresentsLookup(BucketAfter(host, inside, calls, 2), PREFIX, m, id, e');
    }
  }

  // ----- Against the write-once map -----

  ghost predicate KeysInside(inside: string -> bool, calls: seq<StoreCall>) {
    forall i, e :: 0 <= i < |calls| ==> inside(StorageKey(PREFIX, calls[i].assetId, e))
  }

  /** On a bucket that the map represents, the two stores do the same, unless the asset is there under
      another extension. */
  lemma {:induction false} SameStep(
    host: Host, inside: string -> bool, bucket: map<string, Bytes>, m: map<string, Stored>, c: StoreCall)
    requires Represents(bucket, PREFIX, m) && forall e :: inside(StorageKey(PREFIX, c.assetId, e))
    requires c.data != [] && ExtensionOf(c.mimeType).Some? && c.assetId in m ==>
            ExtensionOf(c.mimeType) == Some(m[c.assetId].extension)
    ensures R2Store(host, inside, bucket, c).1 == StoreSpec(host, PREFIX, m, c).1
    ensures Represents(R2Store(host, inside, bucket, c).0, PREFIX, StoreSpec(host, PREFIX, m, c).0)
  {
    hide StorageKey, ExtensionOf, Represents;
    if c.data != [] && ExtensionOf(c.mimeType).Some? {
      var e := ExtensionOf(c.mimeType).value;
      RepresentsLookup(bucket, PREFIX, m, c.assetId, e);
      var key := StorageKey(PREFIX, c.assetId, e);
      if key !in bucket || bucket[key] == c.data {
        RepresentsStore(bucket, PREFIX, m, c.assetId, e, c.data);
        if key in bucket {
          assert bucket[key := c.data] == bucket;
        }
      }
    }
  }

  ghost predicate SameResults(host: Host, inside: string -> bool, calls: seq<StoreCall>, n: nat)
    requires n <= |calls|
  {
    forall i :: 0 <= i < n ==> R2Result(host, inside, calls, i) == MapResult(host, calls, i)
  }

  lemma {:induction false} MapExtensionStays(host: Host, calls: seq<StoreCall>, i: nat, n: nat, id: string)
    requires i <= n <= |calls| && id in MapAfter(host, calls, i)
    ensures id in MapAfter(host, calls, n)
    ensures MapAfter(host, calls, n)[id].extension == MapAfter(host, calls, i)[id].extension
    decreases n
  {
    hide StorageKey, ExtensionOf;
    if i < n {
      MapExtensionStays(host, calls, i, n - 1, id);
    }
  }

  /** The map never lets two extensions of one asset succeed. */
  lemma {:induction false} MapSuccessesAgree(host: Host, calls: seq<StoreCall>, i: nat, j: nat)
    requires i < j < |calls| && calls[i].assetId == calls[j].assetId
    requires MapResult(host, calls, i).Stores? && MapResult(host, calls, j).Stores?
    ensures ExtensionOf(calls[i].mimeType) == ExtensionOf(calls[j].mimeType)
  {
    hide StorageKey, ExtensionOf;
    MapExtensionStays(host, calls, i + 1, j, calls[i].assetId);
  }

  lemma {:induction false} RequestMatchesStored(
    host: Host, inside: string -> bool, calls: seq<StoreCall>, n: nat, m: map<string, Stored>)
    requires n < |calls| && RequestsAgree(calls) && Represents(BucketAfter(host, inside, calls, n), PREFIX, m)
    requires Asks(calls[n]) && calls[n].assetId in m
    ensures ExtensionOf(calls[n].mimeType) == Some(m[calls[n].assetId].extension)
  {
    hide StorageKey, ExtensionOf, BucketAfter, Represents, Succeeds;
    var id, e := calls[n].assetId, m[calls[n].assetId].extension;
    RepresentsLookup(BucketAfter(host, inside, calls, n), PREFIX, m, id, e);
    var i := KeyHasSuccess(host, inside, calls, n, id, e);
    SuccessAsked(host, inside, calls, i, id, e);
  }

  lemma {:induction false} EmptyIsRepresented()
    ensures Represents(map[], PREFIX, map[])
  {
  }

  lemma {:induction false} AgreeingRunIsRepresented(host: Host, inside: string -> bool, calls: seq<StoreCall>, n: nat)
    requires n <= |calls| && KeysInside(inside, calls) && RequestsAgree(calls)
    ensures Represents(BucketAfter(host, inside, calls, n), PREFIX, MapAfter(host, calls, n))
    ensures SameResults(host, inside, calls, n)
  {
    hide StorageKey, ExtensionOf, StoreSpec, R2Store, RequestsAgree, Represents;
    if n == 0 {
      EmptyIsRepresented();
    } else {
      AgreeingRunIsRepresented(host, inside, calls, n - 1);
      var bucket, m, c := BucketAfter(host, inside, calls, n - 1), MapAfter(host, calls, n - 1), calls[n - 1];
      if Asks(c) && c.assetId in m {
        RequestMatchesStored(host, inside, calls, n - 1, m);
      }
      SameStep(host, inside, bucket, m, c);
    }
  }

  /** Over any run the object store answers every call as the write-once map does, if and only if no two of
      the requests share an asset and differ in extension. */
  lemma {:induction false} RunsAgreeIffRequestsAgree(host: Host, inside: string -> bool, calls: seq<StoreCall>)
    requires KeysInside(inside, calls)
    ensures SameResults(host, inside, calls, |calls|) <==> RequestsAgree(calls)
  {
    hide StorageKey, ExtensionOf, R2Result, MapResult, KeysInside, BucketAfter, Asks, Succeeds;
    if RequestsAgree(calls) {
      AgreeingRunIsRepresented(host, inside, calls, |calls|);
    }
    if SameResults(host, inside, calls, |calls|) {
      var bucket := BucketAfter(host, inside, calls, |calls|);
      forall id, e, e' | StorageKey(PREFIX, id, e) in bucket && StorageKey(PREFIX, id, e') in bucket ensures e == e' {
        var i := KeyHasSuccess(host, inside, calls, |calls|, id, e);
        var j := KeyHasSuccess(host, inside, calls, |calls|, id, e');
        SuccessfulExtension(host, inside, calls, i, id, e);
        SuccessfulExtension(host, inside, calls, j, id, e');
        if i < j {
          MapSuccessesAgree(host, calls, i, j);
        } else if j < i {
          MapSuccessesAgree(host, calls, j, i);
        }
      }
      OneExtensionIffRequestsAgree(host, inside, calls);
    }
  }

  lemma {:induction false} SuccessfulExtension(
    host: Host, inside: string -> bool, calls: seq<StoreCall>, i: nat, id: string, e: Extension)
    requires Succeeds(host, inside, calls, i, id, e)
    ensures i < |calls| && R2Result(host, inside, calls, i).Stores?
    ensures calls[i].assetId == id && ExtensionOf(calls[i].mimeType) == Some(e)
  {
    hide ExtensionOf, R2Result;
  }
}
