/** The filesystem driver, FileSystemAssetStorage (storage.py), when calls do not overlap: a call looks up
    resolved paths, makes directories and writes one file. ConcurrentStore models overlapping calls. */
module FileStorage {
  import opened Text
  import opened Fingerprints
  import opened AssetStorage

  /** The components of an absolute path. */
  type Path = seq<string>

  /** Where a storage key leads (None is outside the root), and the directories that are passed between
      a destination's directory and the temporary name that mkstemp makes from an asset id. */
  datatype Layout = Layout(resolve: string -> Option<Path>, passed: (Path, string) -> set<Path>)

  datatype Disk = Disk(files: map<Path, Bytes>, directories: set<Path>)

  function PathOf(layout: Layout, id: string, e: Extension): Option<Path> {
    layout.resolve(StorageKey(PREFIX, id, e))
  }

  function Ancestors(p: Path): set<Path> {
    set i | 0 <= i < |p| :: p[..i]
  }

  lemma {:induction false} NotOwnAncestor(p: Path)
    ensures p !in Ancestors(p)
  {
    forall a | a in Ancestors(p) ensures |a| < |p| {
    }
  }

  function Parent(p: Path): Path {
    if p == [] then p else p[..|p| - 1]
  }

  predicate Exists(disk: Disk, p: Path) {
    p in disk.files || p in disk.directories
  }

  /** What the checks of the three possible extensions, from the i-th on, refuse. */
  function SiblingError(layout: Layout, disk: Disk, id: string, destination: Path, i: nat): Option<StoreError>
    requires i <= |EXTENSIONS|
    decreases |EXTENSIONS| - i
  {
    if i == |EXTENSIONS| then None
    else match PathOf(layout, id, EXTENSIONS[i])
      case None => Some(PathEscaped)
      case Some(sibling) =>
        if sibling != destination && Exists(disk, sibling) then Some(DifferentMetadata)
        else SiblingError(layout, disk, id, destination, i + 1)
  }

  /** The part of a store after the sibling checks: a file in the way of the directories, a directory at the
      destination or a temporary name in a directory that is not there are operating-system errors. */
  function FileWrite(host: Host, layout: Layout, disk: Disk, destination: Path, storageKey: string, c: StoreCall)
    : (Disk, StoreResult)
  {
    var made := disk.(directories := disk.directories + Ancestors(destination));
    if Ancestors(destination) * disk.files.Keys != {} then (disk, Raises(IoError))
    else if destination in disk.directories then (made, Raises(IoError))
    else if destination in disk.files then
      (made, if disk.files[destination] == c.data then Stores(StoredFor(host, storageKey, c))
        else Raises(DifferentBytes))
    else if !(layout.passed(Parent(destination), c.assetId) <= made.directories) then (made, Raises(IoError))
    else (made.(files := made.files[destination := c.data]), Stores(StoredFor(host, storageKey, c)))
  }

  function FileStore(host: Host, layout: Layout, disk: Disk, c: StoreCall): (Disk, StoreResult) {
    var extension := ExtensionOf(c.mimeType);
    if c.data == [] then (disk, Raises(EmptyBytes))
    else if extension.None? then (disk, Raises(UnsupportedMimeType))
    else match PathOf(layout, c.assetId, extension.value)
      case None => (disk, Raises(PathEscaped))
      case Some(destination) =>
        var refused := SiblingError(layout, disk, c.assetId, destination, 0);
        if refused.Some? then (disk, Raises(refused.value))
        else FileWrite(host, layout, disk, destination, StorageKey(PREFIX, c.assetId, extension.value), c)
  }

  function FileRetrieve(layout: Layout, disk: Disk, storageKey: string): RetrieveResult {
    match layout.resolve(storageKey)
    case None => Escaped
    case Some(target) => if target in disk.files then Retrieved(disk.files[target]) else NotFound
  }

  /** FileSystemAssetStorage over a disk. */
  class FileSystemAssetStorage {
    const layout: Layout
    var files: map<Path, Bytes>
    var directories: set<Path>

    constructor (layout: Layout, directories: set<Path>)
      ensures this.layout == layout && Contents() == Disk(map[], directories)
    {
      this.layout, this.files, this.directories := layout, map[], directories;
    }

    function Contents(): Disk
      reads this
    {
      Disk(files, directories)
    }

    /** mkdir with parents; false is the error of a file in the way. */
    method MakeDirectories(destination: Path) returns (ok: bool)
      modifies this`directories
      ensures ok <==> Ancestors(destination) * files.Keys == {}
      ensures directories == if ok then old(directories) + Ancestors(destination) else old(directories)
    {
      ok := Ancestors(destination) * files.Keys == {};
      if ok {
        directories := directories + Ancestors(destination);
      }
    }

    /** The three sibling checks. */
    method CheckSiblings(id: string, destination: Path) returns (refused: Option<StoreError>)
      ensures refused == SiblingError(layout, Contents(), id, destination, 0)
    {
      hide StorageKey;
      for i := 0 to |EXTENSIONS|
        invariant SiblingError(layout, Contents(), id, destination, 0) == SiblingError(layout, Contents(), id,
                destination, i)
      {
        var sibling := PathOf(layout, id, EXTENSIONS[i]);
        if sibling.None? {
          return Some(PathEscaped);
        }
        if sibling.value != destination && Exists(Contents(), sibling.value) {
          return Some(DifferentMetadata);
        }
      }
      return None;
    }

    method Store(host: Host, c: StoreCall) returns (r: StoreResult)
      modifies this
      ensures (Contents(), r) == FileStore(host, layout, old(Contents()), c)
    {
      hide StorageKey, ExtensionOf, SiblingError, Ancestors;
      if |c.data| == 0 {
        return Raises(EmptyBytes);
      }
      var extension := ExtensionOf(c.mimeType);
      if extension.None? {
        return Raises(UnsupportedMimeType);
      }
      var storageKey := StorageKey(PREFIX, c.assetId, extension.value);
      var destination := layout.resolve(storageKey);
      if destination.None? {
        return Raises(PathEscaped);
      }
      var refused := CheckSiblings(c.assetId, destination.value);
      if refused.Some? {
        return Raises(refused.value);
      }
      var made := MakeDirectories(destination.value);
      if !made {
        return Raises(IoError);
      }
      var checksum := host.sha256Bytes(c.data);
      NotOwnAncestor(destination.value);
      if destination.value in directories {
        return Raises(IoError);
      }
      if destination.value in files {
        if files[destination.value] != c.data {
          return Raises(DifferentBytes);
        }
      } else {
        if !(layout.passed(Parent(destination.value), c.assetId) <= directories) {
          return Raises(IoError);
        }
        files := files[destination.value := c.data];
      }
      return Stores(StoredAsset(storageKey, checksum, c.mimeType, c.width, c.height));
    }

    /** NotFound is the error of a path that is no file. */
    method Retrieve(storageKey: string) returns (r: RetrieveResult)
      ensures r == FileRetrieve(layout, Contents(), storageKey)
    {
      var target := layout.resolve(storageKey);
      if target.None? {
        return Escaped;
      }
      if target.value in files {
        return Retrieved(files[target.value]);
      }
      return NotFound;
    }
  }

  // ----- Runs -----

  function DiskAfter(host: Host, layout: Layout, start: set<Path>, calls: seq<StoreCall>, n: nat): Disk
    requires n <= |calls|
  {
    if n == 0 then Disk(map[], start)
    else FileStore(host, layout, DiskAfter(host, layout, start, calls, n - 1), calls[n - 1]).0
  }

  function FileResult(host: Host, layout: Layout, start: set<Path>, calls: seq<StoreCall>, i: nat): StoreResult
    requires i < |calls|
  {
    FileStore(host, layout, DiskAfter(host, layout, start, calls, i), calls[i]).1
  }

  /** A file once there keeps its bytes, whatever is stored afterwards. */
  lemma {:induction false} StepKeepsFiles(host: Host, layout: Layout, disk: Disk, c: StoreCall, p: Path)
    requires p in disk.files
    ensures var disk' := FileStore(host, layout, disk, c).0; p in disk'.files && disk'.files[p] == disk.files[p]
  {
    hide StorageKey, ExtensionOf, SiblingError, Ancestors;
  }

  lemma {:induction false} SuccessIsOnDisk(host: Host, layout: Layout, disk: Disk, c: StoreCall)
    requires FileStore(host, layout, disk, c).1.Stores?
    ensures c.data != [] && ExtensionOf(c.mimeType).Some?
            && PathOf(layout, c.assetId, ExtensionOf(c.mimeType).value).Some?
    ensures var (disk', r) := FileStore(host, layout, disk, c);
            var p := PathOf(layout, c.assetId, ExtensionOf(c.mimeType).value).value;
            && p in disk'.files && disk'.files[p] == c.data
            && r.asset == StoredFor(host, StorageKey(PREFIX, c.assetId, ExtensionOf(c.mimeType).value), c)
            && SiblingError(layout, disk, c.assetId, p, 0).None?
  {
    hide StorageKey, ExtensionOf, SiblingError, Ancestors;
  }

  lemma {:induction false} SiblingsMissing(layout: Layout, disk: Disk, id: string, destination: Path, e: Extension)
    requires SiblingError(layout, disk, id, destination, 0).None?
    ensures PathOf(layout, id, e).Some?
    ensures PathOf(layout, id, e).value != destination ==> !Exists(disk, PathOf(layout, id, e).value)
  {
    hide StorageKey, PathOf, Exists;
    assert EXTENSIONS == [Jpg, PngFile, Webp];
    assert SiblingError(layout, disk, id, destination, 1).None? && SiblingError(layout, disk, id, destination, 2).None?;
  }

  /** The extensions of one asset lead to different files. */
  ghost predicate OwnPathsApart(layout: Layout, id: string) {
    forall e, e' :: PathOf(layout, id, e).Some? && PathOf(layout, id, e) == PathOf(layout, id, e') ==> e == e'
  }

  /** Two stores of one asset that both succeed, one later than the other, wrote the same bytes to the same
      file, and so under one extension when its extensions lead to different files. */
  lemma {:induction false} LaterSuccessAgrees(
    host: Host, layout: Layout, early: Disk, c: StoreCall, late: Disk, c': StoreCall)
    requires FileStore(host, layout, early, c).1.Stores? && FileStore(host, layout, late, c').1.Stores?
    requires c.assetId == c'.assetId
    requires forall p :: p in FileStore(host, layout, early, c).0.files ==>
               p in late.files && late.files[p] == FileStore(host, layout, early, c).0.files[p]
    ensures c.data == c'.data
    ensures OwnPathsApart(layout, c.assetId) ==> ExtensionOf(c.mimeType) == ExtensionOf(c'.mimeType)
  {
    SuccessIsOnDisk(host, layout, early, c);
    SuccessIsOnDisk(host, layout, late, c');
    var e, e' := ExtensionOf(c.mimeType).value, ExtensionOf(c'.mimeType).value;
    var p' := PathOf(layout, c.assetId, e').value;
    SiblingsMissing(layout, late, c.assetId, p', e);
    assert late.files[p'] == c'.data by {
      StepKeepsFiles(host, layout, late, c', p');
    }
    hide FileStore, ExtensionOf, PathOf, StorageKey, SiblingError;
  }

  // ----- Against the write-once map -----

  /** The driver answers every call of the run as the write-once map does. */
  ghost predicate AnswersLikeMap(host: Host, layout: Layout, start: set<Path>, calls: seq<StoreCall>, n: nat)
    requires n <= |calls|
  {
    forall i :: 0 <= i < n ==> FileResult(host, layout, start, calls, i) == MapResult(host, calls, i)
  }

  ghost predicate OnlyIds(ids: string -> bool, calls: seq<StoreCall>) {
    forall i :: 0 <= i < |calls| ==> ids(calls[i].assetId)
  }

  ghost predicate AllInside(layout: Layout, ids: string -> bool) {
    forall id, e :: ids(id) ==> PathOf(layout, id, e).Some?
  }

  /** No directory is where the file is to be, and its temporary name is in a directory that exists. */
  ghost predicate Reachable(layout: Layout, start: set<Path>, id: string, e: Extension)
    requires PathOf(layout, id, e).Some?
  {
    var p := PathOf(layout, id, e).value;
    p !in start && layout.passed(Parent(p), id) <= start + Ancestors(p)
  }

  /** Two files of different keys are different, and the first is no directory of the second. */
  ghost predicate Apart(layout: Layout, id: string, e: Extension, id': string, e': Extension) {
    var p, p' := PathOf(layout, id, e), PathOf(layout, id', e');
    p.Some? && p'.Some? ==> p != p' && p.value !in Ancestors(p'.value)
  }

  /** Every key of these assets has a file of its own that can be written. */
  ghost predicate Clear(layout: Layout, start: set<Path>, ids: string -> bool)
    requires AllInside(layout, ids)
  {
    && (forall id, e :: ids(id) ==> Reachable(layout, start, id, e))
    && (forall id, e, id', e' :: ids(id) && ids(id') && (id, e) != (id', e') ==> Apart(layout, id, e, id', e'))
  }

  /** The disk holds exactly the assets of the map, each at its path, and no directories but those of paths. */
  ghost predicate DiskRepresents(
    layout: Layout, start: set<Path>, ids: string -> bool, disk: Disk, m: map<string, Stored>)
    requires AllInside(layout, ids)
  {
    && (forall id :: id in m ==>
          && ids(id)
          && PathOf(layout, id, m[id].extension).value in disk.files
          && disk.files[PathOf(layout, id, m[id].extension).value] == m[id].bytes)
    && (forall p :: p in disk.files ==> exists id :: id in m && p == PathOf(layout, id, m[id].extension).value)
    && start <= disk.directories
    && (forall d :: d in disk.directories ==> d in start || exists id, e ::
       ids(id)
       && d in Ancestors(PathOf(layout, id, e).value))
  }

  lemma {:induction false} PathsOnDisk(
    layout: Layout, start: set<Path>, ids: string -> bool, disk: Disk, m: map<string, Stored>, id: string, e: Extension)
    requires AllInside(layout, ids) && Clear(layout, start, ids) && DiskRepresents(layout, start, ids, disk, m)
            && ids(id)
    ensures var p := PathOf(layout, id, e).value;
            && p !in disk.directories && Ancestors(p) * disk.files.Keys == {}
            && (p in disk.files <==> id in m && m[id].extension == e)
            && (p in disk.files ==> disk.files[p] == m[id].bytes)
  {
    hide PathOf, Ancestors;
    var p := PathOf(layout, id, e).value;
    assert Reachable(layout, start, id, e);
    forall id', e' | ids(id')
      ensures p !in Ancestors(PathOf(layout, id', e').value) && PathOf(layout, id', e').value !in Ancestors(p)
    {
      if (id', e') == (id, e) {
        NotOwnAncestor(p);
      } else {
        assert Apart(layout, id, e, id', e') && Apart(layout, id', e', id, e);
      }
    }
    if p in disk.files {
      var id' :| id' in m && p == PathOf(layout, id', m[id'].extension).value;
      assert (id', m[id'].extension) != (id, e) ==> Apart(layout, id', m[id'].extension, id, e);
    }
  }

  lemma {:induction false} SiblingErrorIs(
    layout: Layout, disk: Disk, id: string, e: Extension, stored: Option<Extension>)
    requires forall e' :: PathOf(layout, id, e').Some?
    requires forall e' :: e' != e ==> PathOf(layout, id, e') != PathOf(layout, id, e)
    requires forall e' :: Exists(disk, PathOf(layout, id, e').value) <==> stored == Some(e')
    ensures SiblingError(layout, disk, id, PathOf(layout, id, e).value, 0) ==
            if stored.Some? && stored.value != e then Some(DifferentMetadata) else None
  {
    hide PathOf, Exists;
    assert EXTENSIONS == [Jpg, PngFile, Webp];
    var p := PathOf(layout, id, e).value;
    assert SiblingError(layout, disk, id, p, 3) == None;
    var from2 := SiblingError(layout, disk, id, p, 2);
    var from1 := SiblingError(layout, disk, id, p, 1);
  }

  lemma {:induction false} RepresentsMade(
    layout: Layout, start: set<Path>, ids: string -> bool, disk: Disk, m: map<string, Stored>, id: string, e: Extension)
    requires AllInside(layout, ids) && DiskRepresents(layout, start, ids, disk, m) && ids(id)
    ensures var made := disk.(directories := disk.directories + Ancestors(PathOf(layout, id, e).value));
            DiskRepresents(layout, start, ids, made, m)
  {
    hide PathOf, Ancestors;
  }

  lemma {:induction false} RepresentsWritten(
    layout: Layout, start: set<Path>, ids: string -> bool, disk: Disk, m: map<string, Stored>, id: string, e: Extension,
    data: Bytes)
    requires AllInside(layout, ids) && Clear(layout, start, ids) && DiskRepresents(layout, start, ids, disk, m)
            && ids(id)
    requires id in m ==> m[id] == Stored(e, data)
    ensures DiskRepresents(layout, start, ids, disk.(files := disk.files[PathOf(layout, id, e).value := data]),
            m[id := Stored(e, data)])
  {
    hide PathOf, Ancestors, Reachable;
    var p, m' := PathOf(layout, id, e).value, m[id := Stored(e, data)];
    forall i | i in m' && i != id ensures PathOf(layout, i, m'[i].extension).value != p {
      assert Apart(layout, i, m'[i].extension, id, e);
    }
    forall q | q in disk.files && q != p ensures exists i :: i in m' && q == PathOf(layout, i, m'[i].extension).value {
      var i :| i in m && q == PathOf(layout, i, m[i].extension).value;
      assert m'[i] == m[i];
    }
    assert m'[id].extension == e;
  }

  /** One call on a disk that the map represents. */
  lemma {:induction false} SameStep(
    host: Host, layout: Layout, start: set<Path>, ids: string -> bool, disk: Disk, m: map<string, Stored>, c: StoreCall)
    requires AllInside(layout, ids) && Clear(layout, start, ids) && DiskRepresents(layout, start, ids, disk, m)
            && ids(c.assetId)
    ensures FileStore(host, layout, disk, c).1 == StoreSpec(host, PREFIX, m, c).1
    ensures DiskRepresents(layout, start, ids, FileStore(host, layout, disk, c).0, StoreSpec(host, PREFIX, m, c).0)
  {
    hide StorageKey, ExtensionOf, DiskRepresents, Clear, Ancestors, SiblingError, PathOf, OnlyIds;
    if c.data != [] && ExtensionOf(c.mimeType).Some? {
      var id, e := c.assetId, ExtensionOf(c.mimeType).value;
      forall e' {
        PathsOnDisk(layout, start, ids, disk, m, id, e');
      }
      assert Reachable(layout, start, id, e) && start <= disk.directories by { ClearParts(layout, start, ids, disk, m,
        id, e); }
      forall e' | e' != e ensures PathOf(layout, id, e') != PathOf(layout, id, e) {
        ClearApart(layout, start, ids, id, e, e');
      }
      SiblingErrorIs(layout, disk, id, e, if id in m then Some(m[id].extension) else None);
      var made := disk.(directories := disk.directories + Ancestors(PathOf(layout, id, e).value));
      RepresentsMade(layout, start, ids, disk, m, id, e);
      if id !in m || m[id] == Stored(e, c.data) {
        RepresentsWritten(layout, start, ids, made, m, id, e, c.data);
        if id in m {
          assert made.files[PathOf(layout, id, e).value := c.data] == made.files;
        }
      }
    }
  }

  lemma {:induction false} ClearParts(
    layout: Layout, start: set<Path>, ids: string -> bool, disk: Disk, m: map<string, Stored>, id: string, e: Extension)
    requires AllInside(layout, ids) && Clear(layout, start, ids) && DiskRepresents(layout, start, ids, disk, m)
            && ids(id)
    ensures Reachable(layout, start, id, e) && start <= disk.directories
  {
    hide Ancestors, PathOf, Apart;
  }

  lemma {:induction false} ClearApart(
    layout: Layout, start: set<Path>, ids: string -> bool, id: string, e: Extension, e': Extension)
    requires AllInside(layout, ids) && Clear(layout, start, ids) && ids(id) && e != e'
    ensures PathOf(layout, id, e') != PathOf(layout, id, e)
  {
    hide Ancestors, PathOf, Reachable;
    assert Apart(layout, id, e, id, e');
  }

  lemma {:induction false} ClearRunAgrees(
    host: Host, layout: Layout, start: set<Path>, ids: string -> bool, calls: seq<StoreCall>, n: nat)
    requires AllInside(layout, ids) && Clear(layout, start, ids) && OnlyIds(ids, calls) && n <= |calls|
    ensures DiskRepresents(layout, start, ids, DiskAfter(host, layout, start, calls, n), MapAfter(host, calls, n))
    ensures AnswersLikeMap(host, layout, start, calls, n)
  {
    hide StorageKey, ExtensionOf, Clear, FileStore, StoreSpec, PathOf, Ancestors;
    if n > 0 {
      ClearRunAgrees(host, layout, start, ids, calls, n - 1);
      hide DiskRepresents;
      SameStep(host, layout, start, ids, DiskAfter(host, layout, start, calls, n - 1), MapAfter(host, calls, n - 1),
        calls[n - 1]);
    }
  }

  // ----- Only then -----

  ghost predicate AlwaysAnswersLikeMap(host: Host, layout: Layout, start: set<Path>, ids: string -> bool) {
    forall calls :: OnlyIds(ids, calls) ==> AnswersLikeMap(host, layout, start, calls, |calls|)
  }

  function MimeOf(e: Extension): (mime: string)
    ensures ExtensionOf(mime) == Some(e)
  {
    match e
    case Jpg => "image/jpeg"
    case PngFile => "image/png"
    case Webp => "image/webp"
  }

  /** A call that stores one byte. */
  function OneByte(id: string, e: Extension, b: Byte): StoreCall {
    StoreCall([b], MimeOf(e), 1, 1, id)
  }

  lemma {:induction false} FirstByte(host: Host, layout: Layout, start: set<Path>, id: string, e: Extension, b: Byte)
    requires forall e' :: PathOf(layout, id, e').Some?
    requires FileStore(host, layout, Disk(map[], start), OneByte(id, e, b)).1.Stores?
    ensures Reachable(layout, start, id, e)
    ensures var p := PathOf(layout, id, e).value;
            FileStore(host, layout, Disk(map[], start), OneByte(id, e, b)).0 == Disk(map[p := [b]],
              start + Ancestors(p))
  {
    hide PathOf, Ancestors, SiblingError, ExtensionOf, StorageKey;
  }

  lemma {:induction false} MapOfOne(host: Host, id: string, e: Extension, b: Byte, c: StoreCall)
    ensures var calls := [OneByte(id, e, b), c];
            && MapResult(host, calls, 0).Stores?
            && MapResult(host, calls, 1) == StoreSpec(host, PREFIX, map[id := Stored(e, [b])], c).1
  {
    hide ExtensionOf, StorageKey;
    var calls := [OneByte(id, e, b), c];
    assert MapAfter(host, calls, 0) == map[];
    assert MapAfter(host, calls, 1) == map[id := Stored(e, [b])];
  }

  /** What the disk must do when it always answers like the map: the first call succeeds, and the second is
      answered from the file it left as the map answers it. */
  lemma {:induction false} TwoCalls(
    host: Host, layout: Layout, start: set<Path>, ids: string -> bool, id: string, e: Extension, b: Byte, c: StoreCall)
    requires AllInside(layout, ids) && AlwaysAnswersLikeMap(host, layout, start, ids) && ids(id) && ids(c.assetId)
    ensures Reachable(layout, start, id, e)
    ensures var p := PathOf(layout, id, e).value;
            FileStore(host, layout, Disk(map[p := [b]], start + Ancestors(p)), c).1
            == StoreSpec(host, PREFIX, map[id := Stored(e, [b])], c).1
  {
    hide PathOf, Ancestors, SiblingError, ExtensionOf, StorageKey, FileStore, StoreSpec, Reachable;
    var calls := [OneByte(id, e, b), c];
    assert OnlyIds(ids, calls);
    assert AnswersLikeMap(host, layout, start, calls, 2);
    MapOfOne(host, id, e, b, c);
    assert DiskAfter(host, layout, start, calls, 0) == Disk(map[], start);
    assert FileResult(host, layout, start, calls, 0) == MapResult(host, calls, 0);
    FirstByte(host, layout, start, id, e, b);
    assert DiskAfter(host, layout, start, calls, 1) == FileStore(host, layout, Disk(map[], start), calls[0]).0;
    assert FileResult(host, layout, start, calls, 1) == MapResult(host, calls, 1);
  }

  lemma {:induction false} OccupiedSiblingRefuses(
    host: Host, layout: Layout, disk: Disk, id: string, e: Extension, b: Byte, e': Extension)
    requires forall e'' :: PathOf(layout, id, e'').Some?
    requires PathOf(layout, id, e') != PathOf(layout, id, e) && Exists(disk, PathOf(layout, id, e').value)
    ensures FileStore(host, layout, disk, OneByte(id, e, b)).1 == Raises(DifferentMetadata)
  {
    hide ExtensionOf, StorageKey, FileWrite, PathOf, Exists;
    assert EXTENSIONS == [Jpg, PngFile, Webp];
    var p := PathOf(layout, id, e).value;
    assert SiblingError(layout, disk, id, p, 3) == None;
    var from2 := SiblingError(layout, disk, id, p, 2);
    var from1 := SiblingError(layout, disk, id, p, 1);
    hide SiblingError;
    PathOfDestination(layout, id, e);
  }

  lemma {:induction false} PathOfDestination(layout: Layout, id: string, e: Extension)
    ensures layout.resolve(StorageKey(PREFIX, id, e)) == PathOf(layout, id, e)
  {
  }

  /** No path is a directory of another's path. */
  lemma {:induction false} NoNesting(
    host: Host, layout: Layout, start: set<Path>, ids: string -> bool, id: string, e: Extension, id': string,
    e': Extension)
    requires AllInside(layout, ids) && AlwaysAnswersLikeMap(host, layout, start, ids) && ids(id) && ids(id')
    ensures PathOf(layout, id, e).value !in Ancestors(PathOf(layout, id', e').value)
  {
    hide PathOf, Ancestors, SiblingError, ExtensionOf, StorageKey, Reachable, AlwaysAnswersLikeMap;
    var p, p' := PathOf(layout, id, e).value, PathOf(layout, id', e').value;
    NotOwnAncestor(p);
    if p in Ancestors(p') {
      if id == id' {
        TwoCalls(host, layout, start, ids, id, e', 0, OneByte(id, e', 0));
        OccupiedSiblingRefuses(host, layout, Disk(map[p' := [0]], start + Ancestors(p')), id, e', 0, e);
      } else {
        var files: map<Path, Bytes> := map[p := [0]];
        assert p in Ancestors(p') * files.Keys;
        TwoCalls(host, layout, start, ids, id, e, 0, OneByte(id', e', 0));
      }
    }
  }

  lemma {:induction false} NoSharing(
    host: Host, layout: Layout, start: set<Path>, ids: string -> bool, id: string, e: Extension, id': string,
    e': Extension)
    requires AllInside(layout, ids) && AlwaysAnswersLikeMap(host, layout, start, ids) && ids(id) && ids(id')
    requires (id, e) != (id', e')
    ensures PathOf(layout, id, e) != PathOf(layout, id', e')
  {
    hide PathOf, Ancestors, ExtensionOf, StorageKey, AlwaysAnswersLikeMap;
    var p := PathOf(layout, id, e).value;
    var disk := Disk(map[p := [0]], start + Ancestors(p));
    TwoCalls(host, layout, start, ids, id, e, 0, OneByte(id', e', 1));
    if PathOf(layout, id, e) == PathOf(layout, id', e') && id == id' {
      forall e'' ensures PathOf(layout, id, e'').value !in disk.directories {
        TwoCalls(host, layout, start, ids, id, e'', 0, OneByte(id', e', 1));
        NoNesting(host, layout, start, ids, id, e'', id, e);
      }
      SiblingErrorNone(layout, disk, id, p);
    }
  }

  lemma {:induction false} SiblingErrorNone(layout: Layout, disk: Disk, id: string, p: Path)
    requires forall e :: PathOf(layout, id, e).Some?
    requires forall e :: PathOf(layout, id, e).value == p || !Exists(disk, PathOf(layout, id, e).value)
    ensures SiblingError(layout, disk, id, p, 0) == None
  {
    hide PathOf, Exists;
    assert EXTENSIONS == [Jpg, PngFile, Webp];
    assert SiblingError(layout, disk, id, p, 3) == None;
    assert SiblingError(layout, disk, id, p, 2) == None;
    assert SiblingError(layout, disk, id, p, 1) == None;
  }

  /** When the filesystem driver is the write-once map: for assets whose paths stay under the root, every run
      of calls is answered like the map if and only if every key has a file of its own that can be written. */
  lemma {:induction false} AnswersLikeMapIffClear(host: Host, layout: Layout, start: set<Path>, ids: string -> bool)
    requires AllInside(layout, ids)
    ensures AlwaysAnswersLikeMap(host, layout, start, ids) <==> Clear(layout, start, ids)
  {
    hide PathOf, Ancestors, FileStore, StoreSpec, Reachable, DiskRepresents;
    if Clear(layout, start, ids) {
      forall calls | OnlyIds(ids, calls) ensures AnswersLikeMap(host, layout, start, calls, |calls|) {
        ClearRunAgrees(host, layout, start, ids, calls, |calls|);
      }
    }
    if AlwaysAnswersLikeMap(host, layout, start, ids) {
      forall id, e | ids(id) ensures Reachable(layout, start, id, e) {
        TwoCalls(host, layout, start, ids, id, e, 0, OneByte(id, e, 0));
      }
      forall id, e, id', e' | ids(id) && ids(id') && (id, e) != (id', e') ensures Apart(layout, id, e, id', e') {
        NoNesting(host, layout, start, ids, id, e, id', e');
        NoSharing(host, layout, start, ids, id, e, id', e');
      }
    }
  }

  /** An asset with a path that leads outside is refused under every extension. */
  lemma {:induction false} EscapingRefused(host: Host, layout: Layout, disk: Disk, c: StoreCall, e: Extension)
    requires PathOf(layout, c.assetId, e).None?
    ensures FileStore(host, layout, disk, c).0 == disk && FileStore(host, layout, disk, c).1.Raises?
  {
    hide StorageKey, ExtensionOf, PathOf, SiblingError, FileWrite;
    if c.data != [] && ExtensionOf(c.mimeType).Some? && PathOf(layout, c.assetId, ExtensionOf(c.mimeType).value).Some? {
      var p := PathOf(layout, c.assetId, ExtensionOf(c.mimeType).value).value;
      if SiblingError(layout, disk, c.assetId, p, 0).None? {
        SiblingsMissing(layout, disk, c.assetId, p, e);
      }
    }
  }

  /** On a disk that the map represents, retrieving answers for every spelling of a key: exactly where it
      leads to the path of a stored asset, with that asset's bytes. */
  lemma {:induction false} RetrieveMeans(
    layout: Layout, start: set<Path>, ids: string -> bool, disk: Disk, m: map<string, Stored>, storageKey: string,
    bytes: Bytes)
    requires AllInside(layout, ids) && DiskRepresents(layout, start, ids, disk, m)
    ensures FileRetrieve(layout, disk, storageKey) == Retrieved(bytes) <==>
            exists id :: id in m && layout.resolve(storageKey) == PathOf(layout, id, m[id].extension)
              && bytes == m[id].bytes
  {
    hide PathOf, Ancestors;
    if FileRetrieve(layout, disk, storageKey) == Retrieved(bytes) {
      var id :| id in m && layout.resolve(storageKey).value == PathOf(layout, id, m[id].extension).value;
      assert ids(id);
    }
  }
}
