/** generate_static_asset (image_provider.py) over each storage driver. */
module AssetGeneration {
  import opened Text
  import opened Fingerprints
  import opened AssetStorage
  import opened FileStorage
  import opened ObjectStorage
  import Png

  datatype ProviderOutcome =
    | Image(data: Bytes, mimeType: string, width: int, height: int, requestId: Option<string>)
    | Unavailable(code: string)
    | ProviderFailure(code: string)
    | OtherException

  datatype Request = Request(assetId: string, itemVersionId: string, width: int, height: int, altText: string)

  /** The planned identity of an item version's asset, and what the provider calls itself. */
  datatype Setting = Setting(plannedId: string -> string, providerName: string, providerModel: string)

  datatype AssetKind = GeneratedStatic | PromptOnly

  datatype AssetStatus = Ready | Missing | Failed

  /** A ContentAsset, its creation time aside. */
  datatype ContentAsset = ContentAsset(
    id: string, itemVersionId: string, kind: AssetKind, status: AssetStatus, stored: Option<StoredAsset>,
    altText: string,
    providerName: string, providerModel: string, providerRequestId: Option<string>, failureCode: Option<string>)

  datatype GenerateResult = Returns(asset: ContentAsset) | SchemaFailure

  function Unstored(
    setting: Setting, request: Request, kind: AssetKind, status: AssetStatus, code: string): ContentAsset {
    ContentAsset(request.assetId, request.itemVersionId, kind, status, None, request.altText, setting.providerName,
                 setting.providerModel, None, Some(code))
  }

  const PROVIDER_FAILURE := "CONTENT_PROVIDER_FAILURE"

  function FailedAsset(setting: Setting, request: Request, code: string): ContentAsset {
    Unstored(setting, request, GeneratedStatic, Failed, code)
  }

  predicate UsableImage(request: Request, image: ProviderOutcome) {
    && image.Image?
    && image.data != [] && ExtensionOf(image.mimeType).Some?
    && image.width == request.width && image.height == request.height
    && (image.mimeType == "image/png" ==>
          var size := Png.PngDimensions(image.data);
          size.Some? && size.value.0 == image.width && size.value.1 == image.height)
  }

  /** What the drivers return matches what was asked, so the consistency check never fails. */
  function FinishAsset(setting: Setting, request: Request, image: ProviderOutcome, result: StoreResult): ContentAsset
    requires image.Image?
  {
    match result
    case Raises(_) => FailedAsset(setting, request, PROVIDER_FAILURE)
    case Stores(s) =>
      ContentAsset(request.assetId, request.itemVersionId, GeneratedStatic, Ready, Some(s), request.altText,
        setting.providerName,
                   setting.providerModel, image.requestId, None)
  }

  /** The result when storage is not reached; None when it is. */
  function WithoutStorage(
    setting: Setting, available: bool, request: Request, outcome: ProviderOutcome): Option<GenerateResult> {
    if request.assetId != setting.plannedId(request.itemVersionId) then Some(SchemaFailure)
    else if !available then Some(Returns(FailedAsset(setting, request, PROVIDER_FAILURE)))
    else match outcome
      case Unavailable(code) => Some(Returns(Unstored(setting, request, PromptOnly, Missing, code)))
      case ProviderFailure(code) => Some(Returns(FailedAsset(setting, request, code)))
      case OtherException => Some(Returns(FailedAsset(setting, request, PROVIDER_FAILURE)))
      case Image(_, _, _, _, _) =>
        if UsableImage(request, outcome) then None else Some(Returns(FailedAsset(setting, request, PROVIDER_FAILURE)))
  }

  function CallOf(request: Request, image: ProviderOutcome): StoreCall
    requires image.Image?
  {
    StoreCall(image.data, image.mimeType, image.width, image.height, request.assetId)
  }

  /** What the operating system or the network may add to a store: an error before anything is there, or
      after everything is. */
  datatype Fault = NoFault | Lost | Unreported

  /** A driver as a function on its state. */
  type Driver<!S> = (S, StoreCall) -> (S, StoreResult)

  function Faulted<S>(store: Driver<S>, s: S, c: StoreCall, fault: Fault): (S, StoreResult) {
    match fault
    case NoFault => store(s, c)
    case Lost => (s, Raises(IoError))
    case Unreported => (store(s, c).0, Raises(IoError))
  }

  /** One call of generate_static_asset. */
  datatype Attempt = Attempt(request: Request, outcome: ProviderOutcome, fault: Fault)

  /** generate_static_asset over any driver. */
  function Generate<S>(setting: Setting, store: Driver<S>, s: S, a: Attempt): (S, GenerateResult) {
    var early := WithoutStorage(setting, true, a.request, a.outcome);
    if early.Some? then (s, early.value)
    else
      var (s', result) := Faulted(store, s, CallOf(a.request, a.outcome), a.fault);
      (s', Returns(FinishAsset(setting, a.request, a.outcome, result)))
  }

  function MapDriver(host: Host, prefix: string): Driver<map<string, Stored>> {
    (m: map<string, Stored>, c: StoreCall) => StoreSpec(host, prefix, m, c)
  }

  function DiskDriver(host: Host, layout: Layout): Driver<Disk> {
    (disk: Disk, c: StoreCall) => FileStore(host, layout, disk, c)
  }

  function BucketDriver(host: Host, inside: string -> bool): Driver<map<string, Bytes>> {
    (b: map<string, Bytes>, c: StoreCall) => R2Store(host, inside, b, c)
  }

  // ----- The four drivers -----

  datatype Port =
    | Memory(memory: DeterministicAssetStorage)
    | Files(files: FileSystemAssetStorage)
    | Objects(objects: R2AssetStorage)
    | Unconfigured

  function Owned(port: Port): set<object> {
    match port
    case Memory(s) => {s}
    case Files(s) => {s}
    case Objects(s) => {s}
    case Unconfigured => {}
  }

  ghost predicate PortValid(port: Port)
    reads Owned(port)
  {
    port.Memory? ==> port.memory.Valid()
  }

  method PortStore(port: Port, host: Host, c: StoreCall, fault: Fault) returns (r: StoreResult)
    requires PortValid(port) && !port.Unconfigured?
    modifies Owned(port)
    ensures PortValid(port)
    ensures port.Memory? ==>
              (port.memory.contents, r)
              == Faulted(MapDriver(host, DeterministicAssetStorage.TEST_PREFIX), old(port.memory.contents), c, fault)
    ensures port.Files? ==>
              (port.files.Contents(), r) == Faulted(DiskDriver(host, port.files.layout), old(port.files.Contents()), c,
                fault)
    ensures port.Objects? ==>
              (port.objects.bucket, r) == Faulted(BucketDriver(host, port.objects.inside), old(port.objects.bucket), c,
                fault)
    ensures r.Stores? ==>
              && r.asset.storageKey != "" && r.asset.checksum == host.sha256Bytes(c.data)
              && r.asset.mimeType == c.mimeType && r.asset.width == c.width && r.asset.height == c.height
  {
    hide SiblingError, ExtensionOf;
    if fault.Lost? {
      return Raises(IoError);
    }
    match port {
      case Memory(s) => r := s.Store(host, c);
      case Files(s) => r := s.Store(host, c);
      case Objects(s) => r := s.Store(host, c);
      case Unconfigured => assert false;
    }
    if fault.Unreported? {
      r := Raises(IoError);
    }
  }

  method GenerateStaticAsset(host: Host, setting: Setting, port: Port, a: Attempt) returns (r: GenerateResult)
    requires PortValid(port)
    modifies Owned(port)
    ensures PortValid(port)
    ensures port.Memory? ==>
              (port.memory.contents, r)
              == Generate(setting, MapDriver(host, DeterministicAssetStorage.TEST_PREFIX), old(port.memory.contents), a)
    ensures port.Files? ==>
              (port.files.Contents(), r) == Generate(setting, DiskDriver(host, port.files.layout),
                old(port.files.Contents()), a)
    ensures port.Objects? ==>
              (port.objects.bucket, r) == Generate(setting, BucketDriver(host, port.objects.inside),
                old(port.objects.bucket), a)
    ensures port.Unconfigured? ==> Some(r) == WithoutStorage(setting, false, a.request, a.outcome)
  {
    hide UsableImage, StoreSpec, FileStore, R2Store;
    if a.request.assetId != setting.plannedId(a.request.itemVersionId) {
      return SchemaFailure;
    }
    if port.Unconfigured? {
      return Returns(FailedAsset(setting, a.request, PROVIDER_FAILURE));
    }
    match a.outcome {
      case Unavailable(code) =>
        return Returns(Unstored(setting, a.request, PromptOnly, Missing, code));
      case ProviderFailure(code) =>
        return Returns(FailedAsset(setting, a.request, code));
      case OtherException =>
        return Returns(FailedAsset(setting, a.request, PROVIDER_FAILURE));
      case Image(data, mimeType, width, height, _) =>
        if !UsableImage(a.request, a.outcome) {
          return Returns(FailedAsset(setting, a.request, PROVIDER_FAILURE));
        }
        var stored := PortStore(port, host, CallOf(a.request, a.outcome), a.fault);
        if stored.Stores?
           && (|stored.asset.storageKey| == 0
               || stored.asset.checksum != host.sha256Bytes(data)
               || stored.asset.mimeType != mimeType
               || stored.asset.width != width
               || stored.asset.height != height)
        {
          return Returns(FailedAsset(setting, a.request, PROVIDER_FAILURE));
        }
        return Returns(FinishAsset(setting, a.request, a.outcome, stored));
    }
  }

  // ----- Runs -----

  /** What the first n calls leave in the store. */
  function StateAfter<S>(setting: Setting, store: Driver<S>, s: S, calls: seq<Attempt>, n: nat): S
    requires n <= |calls|
  {
    if n == 0 then s else Generate(setting, store, StateAfter(setting, store, s, calls, n - 1), calls[n - 1]).0
  }

  function ResultOf<S>(setting: Setting, store: Driver<S>, s: S, calls: seq<Attempt>, i: nat): GenerateResult
    requires i < |calls|
  {
    Generate(setting, store, StateAfter(setting, store, s, calls, i), calls[i]).1
  }

  ghost predicate IsReady(r: GenerateResult) {
    r.Returns? && r.asset.status == Ready && r.asset.stored.Some?
  }

  /** A ready asset came from one undisturbed store that succeeded, and says what it returned. */
  lemma {:induction false} ReadyWasStored<S>(setting: Setting, store: Driver<S>, s: S, a: Attempt)
    requires IsReady(Generate(setting, store, s, a).1)
    ensures a.outcome.Image? && UsableImage(a.request, a.outcome) && a.fault.NoFault?
    ensures Generate(setting, store, s, a).0 == store(s, CallOf(a.request, a.outcome)).0
    ensures store(s, CallOf(a.request, a.outcome)).1 == Stores(Generate(setting, store, s, a).1.asset.stored.value)
    ensures Generate(setting, store, s, a).1.asset.id == a.request.assetId
  {
    hide UsableImage;
  }

  /** A call leaves the store as it was, or as one store call leaves it. */
  lemma {:induction false} GenerateMoves<S>(setting: Setting, store: Driver<S>, s: S, a: Attempt)
    ensures var s' := Generate(setting, store, s, a).0;
            s' == s || (a.outcome.Image? && s' == store(s, CallOf(a.request, a.outcome)).0)
  {
    hide UsableImage;
  }

  /** An asset claims storage exactly when it is ready; it then has the requested size and type, and
      otherwise a failure code. */
  ghost predicate ClaimsOnlyWhenReady(request: Request, a: ContentAsset) {
    && a.id == request.assetId && a.itemVersionId == request.itemVersionId && a.altText == request.altText
    && (a.status == Ready <==> a.stored.Some?) && (a.status == Ready <==> a.failureCode.None?)
    && (a.status == Missing <==> a.kind == PromptOnly)
    && (a.stored.Some? ==>
          && a.stored.value.width == request.width && a.stored.value.height == request.height
          && ExtensionOf(a.stored.value.mimeType).Some? && a.stored.value.storageKey != "")
  }

  ghost predicate AnswersTheCall<S(!new)>(store: Driver<S>) {
    forall s, c :: store(s, c).1.Stores? ==>
      var asset := store(s, c).1.asset;
      asset.mimeType == c.mimeType && asset.width == c.width && asset.height == c.height && asset.storageKey != ""
  }

  lemma {:induction false} ClaimsWithDriver<S(!new)>(setting: Setting, store: Driver<S>, s: S, a: Attempt)
    requires AnswersTheCall(store)
    ensures var r := Generate(setting, store, s, a).1; r.Returns? ==> ClaimsOnlyWhenReady(a.request, r.asset)
  {
    hide ExtensionOf;
  }

  lemma {:induction false} OnlyReadyClaimsStorage(
    setting: Setting, host: Host, layout: Layout, inside: string -> bool, m: map<string, Stored>, disk: Disk,
    bucket: map<string, Bytes>, a: Attempt)
    ensures var r := Generate(setting, MapDriver(host, DeterministicAssetStorage.TEST_PREFIX), m, a).1;
            r.Returns? ==> ClaimsOnlyWhenReady(a.request, r.asset)
    ensures var r := Generate(setting, DiskDriver(host, layout), disk, a).1;
            r.Returns? ==> ClaimsOnlyWhenReady(a.request, r.asset)
    ensures var r := Generate(setting, BucketDriver(host, inside), bucket, a).1;
            r.Returns? ==> ClaimsOnlyWhenReady(a.request, r.asset)
    ensures var r := WithoutStorage(setting, false, a.request, a.outcome).value;
            r.Returns? ==> ClaimsOnlyWhenReady(a.request, r.asset)
  {
    hide SiblingError, ExtensionOf, Generate, ClaimsOnlyWhenReady;
    ClaimsWithDriver(setting, MapDriver(host, DeterministicAssetStorage.TEST_PREFIX), m, a);
    ClaimsWithDriver(setting, DiskDriver(host, layout), disk, a);
    ClaimsWithDriver(setting, BucketDriver(host, inside), bucket, a);
    UnconfiguredClaims(setting, a);
  }

  lemma {:induction false} UnconfiguredClaims(setting: Setting, a: Attempt)
    ensures var r := WithoutStorage(setting, false, a.request, a.outcome).value;
            r.Returns? ==> ClaimsOnlyWhenReady(a.request, r.asset)
  {
    hide ExtensionOf;
  }

  // ----- Runs in memory -----

  lemma {:induction false} MapStays(
    setting: Setting, host: Host, prefix: string, m: map<string, Stored>, calls: seq<Attempt>, i: nat, n: nat,
    id: string)
    requires i <= n <= |calls| && id in StateAfter(setting, MapDriver(host, prefix), m, calls, i)
    ensures var early, late := StateAfter(setting, MapDriver(host, prefix), m, calls, i),
            StateAfter(setting, MapDriver(host, prefix), m, calls, n);
            id in late && late[id] == early[id]
    decreases n
  {
    hide StorageKey, ExtensionOf, Generate;
    if i < n {
      MapStays(setting, host, prefix, m, calls, i, n - 1, id);
      GenerateMoves(setting, MapDriver(host, prefix), StateAfter(setting, MapDriver(host, prefix), m, calls, n - 1),
        calls[n - 1]);
    }
  }

  /** At every later point of a run the key of a ready asset holds the bytes of its checksum. */
  lemma {:induction false} ReadyStaysBacked(
    setting: Setting, host: Host, prefix: string, m: map<string, Stored>, calls: seq<Attempt>, i: nat, n: nat)
    requires i < n <= |calls| && IsReady(ResultOf(setting, MapDriver(host, prefix), m, calls, i))
    ensures var a, later := ResultOf(setting, MapDriver(host, prefix), m, calls, i).asset,
            StateAfter(setting, MapDriver(host, prefix), m, calls, n);
            && a.id == calls[i].request.assetId && a.id in later
            && a.stored.value.storageKey == StorageKey(prefix, a.id, later[a.id].extension)
            && a.stored.value.checksum == host.sha256Bytes(later[a.id].bytes)
  {
    hide StorageKey, ExtensionOf, Generate, UsableImage;
    ReadyWasStored(setting, MapDriver(host, prefix), StateAfter(setting, MapDriver(host, prefix), m, calls, i),
      calls[i]);
    MapStays(setting, host, prefix, m, calls, i + 1, n, calls[i].request.assetId);
  }

  /** In memory all ready assets of one identity are one object: same key, same checksum. */
  lemma {:induction false} ReadyAssetsAgree(
    setting: Setting, host: Host, prefix: string, m: map<string, Stored>, calls: seq<Attempt>, i: nat, j: nat)
    requires i < |calls| && j < |calls| && calls[i].request.assetId == calls[j].request.assetId
    requires IsReady(ResultOf(setting, MapDriver(host, prefix), m, calls, i))
    requires IsReady(ResultOf(setting, MapDriver(host, prefix), m, calls, j))
    ensures var a, b := ResultOf(setting, MapDriver(host, prefix), m, calls, i).asset,
            ResultOf(setting, MapDriver(host, prefix), m, calls, j).asset;
            a.stored.value.checksum == b.stored.value.checksum && a.stored.value.storageKey == b.stored.value.storageKey
  {
    hide StateAfter, ResultOf;
    ReadyStaysBacked(setting, host, prefix, m, calls, i, |calls|);
    ReadyStaysBacked(setting, host, prefix, m, calls, j, |calls|);
  }

  // ----- Runs on the filesystem -----

  lemma {:induction false} FileStays(
    setting: Setting, host: Host, layout: Layout, disk: Disk, calls: seq<Attempt>, i: nat, n: nat, p: Path)
    requires i <= n <= |calls| && p in StateAfter(setting, DiskDriver(host, layout), disk, calls, i).files
    ensures var early, late := StateAfter(setting, DiskDriver(host, layout), disk, calls, i),
            StateAfter(setting, DiskDriver(host, layout), disk, calls, n);
            p in late.files && late.files[p] == early.files[p]
    decreases n
  {
    hide StorageKey, ExtensionOf, Generate, FileStore;
    if i < n {
      FileStays(setting, host, layout, disk, calls, i, n - 1, p);
      var before := StateAfter(setting, DiskDriver(host, layout), disk, calls, n - 1);
      GenerateMoves(setting, DiskDriver(host, layout), before, calls[n - 1]);
      if calls[n - 1].outcome.Image? {
        StepKeepsFiles(host, layout, before, CallOf(calls[n - 1].request, calls[n - 1].outcome), p);
      }
    }
  }

  /** On the filesystem too, whatever faults come in between: retrieving the key of a ready asset gives the
      bytes of its checksum at every later point. */
  lemma {:induction false} ReadyFileStaysBacked(
    setting: Setting, host: Host, layout: Layout, disk: Disk, calls: seq<Attempt>, i: nat, n: nat)
    requires i < n <= |calls| && IsReady(ResultOf(setting, DiskDriver(host, layout), disk, calls, i))
    ensures calls[i].outcome.Image?
    ensures var a, later := ResultOf(setting, DiskDriver(host, layout), disk, calls, i).asset,
            StateAfter(setting, DiskDriver(host, layout), disk, calls, n);
            && FileRetrieve(layout, later, a.stored.value.storageKey) == Retrieved(calls[i].outcome.data)
            && a.stored.value.checksum == host.sha256Bytes(calls[i].outcome.data)
  {
    hide StorageKey, ExtensionOf, Generate, UsableImage, FileStore;
    var before := StateAfter(setting, DiskDriver(host, layout), disk, calls, i);
    ReadyWasStored(setting, DiskDriver(host, layout), before, calls[i]);
    var c := CallOf(calls[i].request, calls[i].outcome);
    SuccessIsOnDisk(host, layout, before, c);
    FileStays(setting, host, layout, disk, calls, i + 1, n,
      PathOf(layout, c.assetId, ExtensionOf(c.mimeType).value).value);
  }

  /** Two ready assets of one identity hold the same bytes, under one key when the asset's extensions lead to
      different files. */
  lemma {:induction false} ReadyFilesAgree(
    setting: Setting, host: Host, layout: Layout, disk: Disk, calls: seq<Attempt>, i: nat, j: nat)
    requires i < j < |calls| && calls[i].request.assetId == calls[j].request.assetId
    requires IsReady(ResultOf(setting, DiskDriver(host, layout), disk, calls, i))
    requires IsReady(ResultOf(setting, DiskDriver(host, layout), disk, calls, j))
    ensures var a, b := ResultOf(setting, DiskDriver(host, layout), disk, calls, i).asset,
            ResultOf(setting, DiskDriver(host, layout), disk, calls, j).asset;
            && a.stored.value.checksum == b.stored.value.checksum
            && (OwnPathsApart(layout, calls[i].request.assetId) ==>
               a.stored.value.storageKey == b.stored.value.storageKey)
  {
    hide StorageKey, ExtensionOf, Generate, UsableImage, FileStore, OwnPathsApart;
    var early := StateAfter(setting, DiskDriver(host, layout), disk, calls, i);
    var late := StateAfter(setting, DiskDriver(host, layout), disk, calls, j);
    ReadyWasStored(setting, DiskDriver(host, layout), early, calls[i]);
    ReadyWasStored(setting, DiskDriver(host, layout), late, calls[j]);
    var c, c' := CallOf(calls[i].request, calls[i].outcome), CallOf(calls[j].request, calls[j].outcome);
    SuccessIsOnDisk(host, layout, early, c);
    SuccessIsOnDisk(host, layout, late, c');
    forall p | p in FileStore(host, layout, early, c).0.files
      ensures p in late.files && late.files[p] == FileStore(host, layout, early, c).0.files[p]
    {
      FileStays(setting, host, layout, disk, calls, i + 1, j, p);
    }
    LaterSuccessAgrees(host, layout, early, c, late, c');
  }

  // ----- Runs over the object store -----

  lemma {:induction false} BucketStays(
    setting: Setting, host: Host, inside: string -> bool, b: map<string, Bytes>, calls: seq<Attempt>, i: nat, n: nat,
    key: string)
    requires i <= n <= |calls| && key in StateAfter(setting, BucketDriver(host, inside), b, calls, i)
    ensures var early, late := StateAfter(setting, BucketDriver(host, inside), b, calls, i),
            StateAfter(setting, BucketDriver(host, inside), b, calls, n);
            key in late && late[key] == early[key]
    decreases n
  {
    hide StorageKey, ExtensionOf, Generate;
    if i < n {
      BucketStays(setting, host, inside, b, calls, i, n - 1, key);
      GenerateMoves(setting, BucketDriver(host, inside),
        StateAfter(setting, BucketDriver(host, inside), b, calls, n - 1), calls[n - 1]);
    }
  }

  /** Over the object store too, a ready asset stays backed, under the key of its own MIME type. */
  lemma {:induction false} ReadyObjectStaysBacked(
    setting: Setting, host: Host, inside: string -> bool, b: map<string, Bytes>, calls: seq<Attempt>, i: nat, n: nat)
    requires i < n <= |calls| && IsReady(ResultOf(setting, BucketDriver(host, inside), b, calls, i))
    ensures calls[i].outcome.Image? && ExtensionOf(calls[i].outcome.mimeType).Some?
    ensures var stored, later := ResultOf(setting, BucketDriver(host, inside), b, calls, i).asset.stored.value,
            StateAfter(setting, BucketDriver(host, inside), b, calls, n);
            && stored.storageKey == StorageKey(PREFIX, calls[i].request.assetId,
               ExtensionOf(calls[i].outcome.mimeType).value)
            && stored.checksum == host.sha256Bytes(calls[i].outcome.data)
            && stored.storageKey in later && later[stored.storageKey] == calls[i].outcome.data
  {
    hide StorageKey, ExtensionOf, Generate;
    ReadyWasStored(setting, BucketDriver(host, inside), StateAfter(setting, BucketDriver(host, inside), b, calls, i),
      calls[i]);
    var key := StorageKey(PREFIX, calls[i].request.assetId, ExtensionOf(calls[i].outcome.mimeType).value);
    BucketStays(setting, host, inside, b, calls, i + 1, n, key);
  }

  /** Over the object store two ready assets of one identity are one object, if and only if their images
      have one extension. */
  lemma {:induction false} ReadyObjectsAgreeIffOneExtension(
    setting: Setting, host: Host, inside: string -> bool, b: map<string, Bytes>, calls: seq<Attempt>, i: nat, j: nat)
    requires i < |calls| && j < |calls| && calls[i].outcome.Image? && calls[j].outcome.Image?
    requires IsReady(ResultOf(setting, BucketDriver(host, inside), b, calls, i))
    requires IsReady(ResultOf(setting, BucketDriver(host, inside), b, calls, j))
    requires calls[i].request.assetId == calls[j].request.assetId
    ensures var x, y := ResultOf(setting, BucketDriver(host, inside), b, calls, i).asset.stored.value,
            ResultOf(setting, BucketDriver(host, inside), b, calls, j).asset.stored.value;
            x.storageKey == y.storageKey && x.checksum == y.checksum
            <==> ExtensionOf(calls[i].outcome.mimeType) == ExtensionOf(calls[j].outcome.mimeType)
  {
    hide StateAfter, ResultOf, StorageKey, ExtensionOf;
    ReadyObjectStaysBacked(setting, host, inside, b, calls, i, |calls|);
    ReadyObjectStaysBacked(setting, host, inside, b, calls, j, |calls|);
    var id, e, e' := calls[i].request.assetId, ExtensionOf(calls[i].outcome.mimeType).value,
      ExtensionOf(calls[j].outcome.mimeType).value;
    if StorageKey(PREFIX, id, e) == StorageKey(PREFIX, id, e') {
      StorageKeyInjective(PREFIX, id, e, id, e');
    }
  }

  /** And they need not be: whatever request, any two usable images of it with different extensions give
      two ready assets with different keys. */
  lemma {:induction false} TwoReadyObjects(
    setting: Setting, host: Host, inside: string -> bool, request: Request, first: ProviderOutcome,
    second: ProviderOutcome)
    requires request.assetId == setting.plannedId(request.itemVersionId)
    requires UsableImage(request, first) && UsableImage(request, second)
    requires ExtensionOf(first.mimeType) != ExtensionOf(second.mimeType)
    ensures var calls := [Attempt(request, first, NoFault), Attempt(request, second, NoFault)];
            var x, y := ResultOf(setting, BucketDriver(host, inside), map[], calls, 0),
              ResultOf(setting, BucketDriver(host, inside), map[], calls, 1);
            && IsReady(x) && IsReady(y)
            && x.asset.stored.value.storageKey != y.asset.stored.value.storageKey
            && x.asset.stored.value.checksum == host.sha256Bytes(first.data)
            && y.asset.stored.value.checksum == host.sha256Bytes(second.data)
  {
    hide StorageKey, ExtensionOf;
    var e, e' := ExtensionOf(first.mimeType).value, ExtensionOf(second.mimeType).value;
    var k, k' := StorageKey(PREFIX, request.assetId, e), StorageKey(PREFIX, request.assetId, e');
    if k == k' {
      StorageKeyInjective(PREFIX, request.assetId, e, request.assetId, e');
    }
    var calls := [Attempt(request, first, NoFault), Attempt(request, second, NoFault)];
    assert StateAfter(setting, BucketDriver(host, inside), map[], calls, 0) == map[];
    assert StateAfter(setting, BucketDriver(host, inside), map[], calls, 1) == map[k := first.data];
  }

  // ----- What becomes ready -----

  /** An image the provider may be taken at its word for: bytes of a supported type in the requested size, and
      for a PNG the size that its own header gives. */
  ghost predicate TrueToRequest(request: Request, image: ProviderOutcome) {
    && image.Image?
    && image.data != []
    && image.mimeType in {"image/jpeg", "image/png", "image/webp"}
    && (image.width, image.height) == (request.width, request.height)
    && (image.mimeType == "image/png" ==> HasPngSize(image.data, request.width, request.height))
  }

  /** The bytes start with a PNG header of this size: signature, length, IHDR, and the two dimensions. */
  ghost predicate HasPngSize(data: Bytes, width: int, height: int) {
    && 0 <= width < Png.LIMIT && 0 <= height < Png.LIMIT
    && |data| >= 24 && data[..8] == Png.SIGNATURE && data[12..16] == Png.IHDR
    && data[16..24] == Png.Pack32(width) + Png.Pack32(height)
  }

  lemma {:induction false} PngSizeIsRead(data: Bytes, width: int, height: int)
    ensures HasPngSize(data, width, height) <==> Png.PngDimensions(data) == Some((width, height))
  {
    if |data| >= 24 {
      assert data[16..24][..4] == data[16..20] && data[16..24][4..] == data[20..24];
      Png.PackUnpack(data[16..20]);
      Png.PackUnpack(data[20..24]);
      if HasPngSize(data, width, height) {
        Png.UnpackPack(width);
        Png.UnpackPack(height);
      }
    }
  }

  lemma {:induction false} UsableIsTrue(request: Request, image: ProviderOutcome)
    ensures UsableImage(request, image) <==> TrueToRequest(request, image)
  {
    hide HasPngSize;
    if image.Image? {
      PngSizeIsRead(image.data, request.width, request.height);
      PngSizeIsRead(image.data, image.width, image.height);
    }
  }

  /** Whatever driver: a ready asset came from an image that was true to the request, and an undisturbed
      one for the planned identity becomes ready whenever the driver takes it. */
  lemma {:induction false} ReadyIffTrueAndStored<S>(setting: Setting, store: Driver<S>, s: S, a: Attempt)
    ensures IsReady(Generate(setting, store, s, a).1) <==>
            && a.request.assetId == setting.plannedId(a.request.itemVersionId)
            && TrueToRequest(a.request, a.outcome) && a.fault == NoFault
            && store(s, CallOf(a.request, a.outcome)).1.Stores?
  {
    hide UsableImage, TrueToRequest;
    UsableIsTrue(a.request, a.outcome);
    TrueIsImage(a.request, a.outcome);
  }

  lemma {:induction false} TrueIsImage(request: Request, image: ProviderOutcome)
    ensures TrueToRequest(request, image) ==> image.Image?
  {
    hide HasPngSize;
  }

  /** The first image of an asset becomes ready if and only if it is true to the request: in memory, in the
      object store, and on a fresh disk where the asset's key can be written. */
  lemma {:induction false} FirstImageReady(
    setting: Setting, host: Host, prefix: string, layout: Layout, start: set<Path>, inside: string -> bool, a: Attempt)
    requires a.request.assetId == setting.plannedId(a.request.itemVersionId) && a.fault == NoFault
    ensures IsReady(Generate(setting, MapDriver(host, prefix), map[], a).1) <==> TrueToRequest(a.request, a.outcome)
    ensures IsReady(Generate(setting, BucketDriver(host, inside), map[], a).1) <==>
            TrueToRequest(a.request, a.outcome)
    ensures (forall e ::
               PathOf(layout, a.request.assetId, e).Some? && Reachable(layout, start, a.request.assetId, e)) ==>
            (IsReady(Generate(setting, DiskDriver(host, layout), Disk(map[], start), a).1) <==>
             TrueToRequest(a.request, a.outcome))
  {
    hide Generate, FileStore, HasPngSize, PathOf, Reachable;
    ReadyIffTrueAndStored(setting, MapDriver(host, prefix), map[], a);
    ReadyIffTrueAndStored(setting, BucketDriver(host, inside), map[], a);
    ReadyIffTrueAndStored(setting, DiskDriver(host, layout), Disk(map[], start), a);
    if TrueToRequest(a.request, a.outcome) {
      var c := CallOf(a.request, a.outcome);
      if forall e :: PathOf(layout, c.assetId, e).Some? && Reachable(layout, start, c.assetId, e) {
        FreshDiskTakes(host, layout, start, c);
      }
    }
  }

  lemma {:induction false} FreshDiskTakes(host: Host, layout: Layout, start: set<Path>, c: StoreCall)
    requires c.data != [] && ExtensionOf(c.mimeType).Some?
    requires forall e :: PathOf(layout, c.assetId, e).Some? && Reachable(layout, start, c.assetId, e)
    ensures FileStore(host, layout, Disk(map[], start), c).1.Stores?
  {
    hide StorageKey, ExtensionOf, PathOf, SiblingError, Ancestors;
    var p := PathOf(layout, c.assetId, ExtensionOf(c.mimeType).value).value;
    SiblingErrorNone(layout, Disk(map[], start), c.assetId, p);
    PathOfDestination(layout, c.assetId, ExtensionOf(c.mimeType).value);
  }

  /** The bytes kept for a ready PNG have a header of exactly the asset's size, at every later point: in
      memory, on the filesystem and in the object store. */
  lemma {:induction false} ReadyPngInMemory(
    setting: Setting, host: Host, prefix: string, m: map<string, Stored>, calls: seq<Attempt>, i: nat, n: nat)
    requires i < n <= |calls| && IsReady(ResultOf(setting, MapDriver(host, prefix), m, calls, i))
    requires ResultOf(setting, MapDriver(host, prefix), m, calls, i).asset.stored.value.mimeType == "image/png"
    ensures var a := ResultOf(setting, MapDriver(host, prefix), m, calls, i).asset;
            var later := StateAfter(setting, MapDriver(host, prefix), m, calls, n);
            a.id in later && HasPngSize(later[a.id].bytes, a.stored.value.width, a.stored.value.height)
  {
    hide StorageKey, ExtensionOf, Generate, UsableImage, HasPngSize;
    var before := StateAfter(setting, MapDriver(host, prefix), m, calls, i);
    ReadyWasStored(setting, MapDriver(host, prefix), before, calls[i]);
    UsableIsTrue(calls[i].request, calls[i].outcome);
    MapStays(setting, host, prefix, m, calls, i + 1, n, calls[i].request.assetId);
  }

  lemma {:induction false} ReadyPngOnDisk(
    setting: Setting, host: Host, layout: Layout, disk: Disk, calls: seq<Attempt>, i: nat, n: nat)
    requires i < n <= |calls| && IsReady(ResultOf(setting, DiskDriver(host, layout), disk, calls, i))
    requires ResultOf(setting, DiskDriver(host, layout), disk, calls, i).asset.stored.value.mimeType == "image/png"
    ensures var stored := ResultOf(setting, DiskDriver(host, layout), disk, calls, i).asset.stored.value;
            var kept := FileRetrieve(layout, StateAfter(setting, DiskDriver(host, layout), disk, calls, n),
              stored.storageKey);
            kept.Retrieved? && HasPngSize(kept.bytes, stored.width, stored.height)
  {
    hide StorageKey, ExtensionOf, Generate, UsableImage, FileStore, HasPngSize, FileRetrieve;
    var before := StateAfter(setting, DiskDriver(host, layout), disk, calls, i);
    ReadyWasStored(setting, DiskDriver(host, layout), before, calls[i]);
    SuccessIsOnDisk(host, layout, before, CallOf(calls[i].request, calls[i].outcome));
    UsableIsTrue(calls[i].request, calls[i].outcome);
    ReadyFileStaysBacked(setting, host, layout, disk, calls, i, n);
  }

  lemma {:induction false} ReadyPngInBucket(
    setting: Setting, host: Host, inside: string -> bool, b: map<string, Bytes>, calls: seq<Attempt>, i: nat, n: nat)
    requires i < n <= |calls| && IsReady(ResultOf(setting, BucketDriver(host, inside), b, calls, i))
    requires ResultOf(setting, BucketDriver(host, inside), b, calls, i).asset.stored.value.mimeType == "image/png"
    ensures var stored := ResultOf(setting, BucketDriver(host, inside), b, calls, i).asset.stored.value;
            var later := StateAfter(setting, BucketDriver(host, inside), b, calls, n);
            stored.storageKey in later && HasPngSize(later[stored.storageKey], stored.width, stored.height)
  {
    hide StorageKey, ExtensionOf, Generate, UsableImage, HasPngSize;
    var before := StateAfter(setting, BucketDriver(host, inside), b, calls, i);
    ReadyWasStored(setting, BucketDriver(host, inside), before, calls[i]);
    UsableIsTrue(calls[i].request, calls[i].outcome);
    ReadyObjectStaysBacked(setting, host, inside, b, calls, i, n);
  }

  /** What a caller learns when nothing was stored: an unplanned identity is the one schema failure, a provider's
      own code is passed on, as missing only when it was unavailable, and all else is one code. */
  lemma {:induction false} FailuresAreTold<S>(setting: Setting, store: Driver<S>, s: S, a: Attempt)
    ensures var r := Generate(setting, store, s, a).1;
            && (r == SchemaFailure <==> a.request.assetId != setting.plannedId(a.request.itemVersionId))
            && (r.Returns? && !IsReady(r) ==>
                  && r.asset.failureCode == Some(
                    if a.outcome.Unavailable? || a.outcome.ProviderFailure? then a.outcome.code
                      else "CONTENT_PROVIDER_FAILURE")
                  && (r.asset.status == Missing <==> a.outcome.Unavailable?)
                  && r.asset.providerRequestId == None)
            && (r.Returns? ==>
                  r.asset.providerName == setting.providerName && r.asset.providerModel == setting.providerModel)
            && (r.Returns? && IsReady(r) ==> r.asset.providerRequestId == a.outcome.requestId)
  {
    hide UsableImage;
  }
}
