/** Immutable asset storage (storage.py). One write-once map from asset identity to extension and bytes
    specifies the in-memory driver, and is what the other drivers are measured against. */
module AssetStorage {
  import opened Text
  import opened Fingerprints

  datatype Extension = Jpg | PngFile | Webp

  function ExtensionOf(mimeType: string): Option<Extension> {
    if mimeType == "image/jpeg" then Some(Jpg)
    else if mimeType == "image/png" then Some(PngFile)
    else if mimeType == "image/webp" then Some(Webp)
    else None
  }

  function Suffix(e: Extension): string {
    match e
    case Jpg => ".jpg"
    case PngFile => ".png"
    case Webp => ".webp"
  }

  const EXTENSIONS := [Jpg, PngFile, Webp]

  /** Where the durable drivers keep generated assets. */
  const PREFIX := "content/generated/"

  function StorageKey(prefix: string, id: string, e: Extension): string {
    prefix + id + Suffix(e)
  }

  /** A storage key names one asset identity and one extension, whatever the identity. */
  lemma {:induction false} StorageKeyInjective(prefix: string, id: string, e: Extension, id': string, e': Extension)
    requires StorageKey(prefix, id, e) == StorageKey(prefix, id', e')
    ensures id == id' && e == e'
  {
    var k := StorageKey(prefix, id, e);
    assert k[|k| - 1] == Suffix(e)[|Suffix(e)| - 1] == Suffix(e')[|Suffix(e')| - 1];
    assert k[|k| - 3] == Suffix(e)[|Suffix(e)| - 3] == Suffix(e')[|Suffix(e')| - 3];
    assert id == k[|prefix|..|k| - |Suffix(e)|] && id' == k[|prefix|..|k| - |Suffix(e')|];
  }

  datatype Stored = Stored(extension: Extension, bytes: Bytes)

  datatype StoreError = EmptyBytes | UnsupportedMimeType | PathEscaped | DifferentMetadata | DifferentBytes | IoError

  datatype StoredAsset = StoredAsset(storageKey: string, checksum: string, mimeType: string, width: int, height: int)

  datatype StoreResult = Stores(asset: StoredAsset) | Raises(error: StoreError)

  datatype RetrieveResult = Retrieved(bytes: Bytes) | NotFound | Escaped

  datatype StoreCall = StoreCall(data: Bytes, mimeType: string, width: int, height: int, assetId: string)

  /** The write-once specification of store. */
  function StoreSpec(
    host: Host, prefix: string, m: map<string, Stored>, c: StoreCall): (map<string, Stored>, StoreResult) {
    var extension := ExtensionOf(c.mimeType);
    if c.data == [] then (m, Raises(EmptyBytes))
    else if extension.None? then (m, Raises(UnsupportedMimeType))
    else if c.assetId in m && m[c.assetId].extension != extension.value then (m, Raises(DifferentMetadata))
    else if c.assetId in m && m[c.assetId].bytes != c.data then (m, Raises(DifferentBytes))
    else (m[c.assetId := Stored(extension.value, c.data)],
          Stores(StoredFor(host, StorageKey(prefix, c.assetId, extension.value), c)))
  }

  /** What a driver returns for a stored call. */
  function StoredFor(host: Host, storageKey: string, c: StoreCall): StoredAsset {
    StoredAsset(storageKey, host.sha256Bytes(c.data), c.mimeType, c.width, c.height)
  }

  /** The map after the first n calls of a run, and the answer to call i. */
  function MapAfter(host: Host, calls: seq<StoreCall>, n: nat): map<string, Stored>
    requires n <= |calls|
  {
    if n == 0 then map[] else StoreSpec(host, PREFIX, MapAfter(host, calls, n - 1), calls[n - 1]).0
  }

  function MapResult(host: Host, calls: seq<StoreCall>, i: nat): StoreResult
    requires i < |calls|
  {
    StoreSpec(host, PREFIX, MapAfter(host, calls, i), calls[i]).1
  }

  /** The objects of a driver are exactly the assets of the map, each under its key. */
  ghost predicate Represents(objects: map<string, Bytes>, prefix: string, m: map<string, Stored>) {
    && (forall id :: id in m ==>
          && StorageKey(prefix, id, m[id].extension) in objects
          && objects[StorageKey(prefix, id, m[id].extension)] == m[id].bytes)
    && (forall k :: k in objects ==> exists id :: id in m && k == StorageKey(prefix, id, m[id].extension))
  }

  lemma {:induction false} RepresentsStore(
    objects: map<string, Bytes>, prefix: string, m: map<string, Stored>, id: string, e: Extension, data: Bytes)
    requires Represents(objects, prefix, m)
    requires id in m ==> m[id] == Stored(e, data)
    ensures Represents(objects[StorageKey(prefix, id, e) := data], prefix, m[id := Stored(e, data)])
  {
    var objects', m' := objects[StorageKey(prefix, id, e) := data], m[id := Stored(e, data)];
    forall i | i in m'
      ensures StorageKey(prefix, i, m'[i].extension) in objects'
      ensures objects'[StorageKey(prefix, i, m'[i].extension)] == m'[i].bytes
    {
      if StorageKey(prefix, i, m'[i].extension) == StorageKey(prefix, id, e) {
        StorageKeyInjective(prefix, i, m'[i].extension, id, e);
      }
    }
    forall k | k in objects' ensures exists i :: i in m' && k == StorageKey(prefix, i, m'[i].extension) {
      if k == StorageKey(prefix, id, e) {
        assert m'[id].extension == e;
      } else {
        var i :| i in m && k == StorageKey(prefix, i, m[i].extension);
        assert i in m' && m'[i] == m[i];
      }
    }
  }

  lemma {:induction false} RepresentsLookup(
    objects: map<string, Bytes>, prefix: string, m: map<string, Stored>, id: string, e: Extension)
    requires Represents(objects, prefix, m)
    ensures StorageKey(prefix, id, e) in objects <==> id in m && m[id].extension == e
    ensures StorageKey(prefix, id, e) in objects ==> objects[StorageKey(prefix, id, e)] == m[id].bytes
  {
    if StorageKey(prefix, id, e) in objects {
      var i :| i in m && StorageKey(prefix, id, e) == StorageKey(prefix, i, m[i].extension);
      StorageKeyInjective(prefix, id, e, i, m[i].extension);
    }
  }

  /** Retrieving answers for every key: the bytes of the asset whose key it is, and not found for the rest. */
  ghost predicate RetrieveOk(prefix: string, m: map<string, Stored>, storageKey: string, r: RetrieveResult) {
    match r
    case Escaped => false
    case NotFound => forall id :: id in m ==> storageKey != StorageKey(prefix, id, m[id].extension)
    case Retrieved(bytes) =>
      exists id :: id in m && storageKey == StorageKey(prefix, id, m[id].extension) && bytes == m[id].bytes
  }

  /** DeterministicAssetStorage. */
  class DeterministicAssetStorage {
    var objects: map<string, Bytes>
    var assetKeys: map<string, string>
    ghost var contents: map<string, Stored>

    static const TEST_PREFIX := "content/test/"

    ghost predicate Valid()
      reads this
    {
      && Represents(objects, TEST_PREFIX, contents)
      && assetKeys.Keys == contents.Keys
      && forall id :: id in contents ==> assetKeys[id] == StorageKey(TEST_PREFIX, id, contents[id].extension)
    }

    constructor ()
      ensures Valid() && contents == map[]
    {
      objects, assetKeys, contents := map[], map[], map[];
    }

    method Store(host: Host, c: StoreCall) returns (r: StoreResult)
      requires Valid()
      modifies this
      ensures Valid()
      ensures (contents, r) == StoreSpec(host, TEST_PREFIX, old(contents), c)
    {
      hide StorageKey, ExtensionOf, Represents;
      if |c.data| == 0 {
        return Raises(EmptyBytes);
      }
      var checksum := host.sha256Bytes(c.data);
      var extension := ExtensionOf(c.mimeType);
      if extension.None? {
        return Raises(UnsupportedMimeType);
      }
      var key := StorageKey(TEST_PREFIX, c.assetId, extension.value);
      assert c.assetId in contents ==>
          (assetKeys[c.assetId] == key <==> contents[c.assetId].extension == extension.value) by {
        if c.assetId in contents && assetKeys[c.assetId] == key {
          StorageKeyInjective(TEST_PREFIX, c.assetId, contents[c.assetId].extension, c.assetId, extension.value);
        }
      }
      if c.assetId in assetKeys && assetKeys[c.assetId] != key {
        return Raises(DifferentMetadata);
      }
      RepresentsLookup(objects, TEST_PREFIX, contents, c.assetId, extension.value);
      if key in objects && objects[key] != c.data {
        return Raises(DifferentBytes);
      }
      RepresentsStore(objects, TEST_PREFIX, contents, c.assetId, extension.value, c.data);
      objects := objects[key := c.data];
      assetKeys := assetKeys[c.assetId := key];
      contents := contents[c.assetId := Stored(extension.value, c.data)];
      return Stores(StoredAsset(key, checksum, c.mimeType, c.width, c.height));
    }

    /** NotFound is the KeyError. */
    method Retrieve(storageKey: string) returns (r: RetrieveResult)
      requires Valid()
      ensures RetrieveOk(TEST_PREFIX, contents, storageKey, r)
    {
      if storageKey in objects {
        return Retrieved(objects[storageKey]);
      }
      return NotFound;
    }
  }
}
