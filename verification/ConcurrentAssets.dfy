/** The filesystem protocol at work on assets: every call is for one extension of an asset and checks the two
    others. When an asset can end up with two extensions. */
module ConcurrentAssets {
  import opened Text
  import opened AssetStorage
  import opened ConcurrentStore

  /** The other extensions, in the order they are checked. */
  function OtherExtensions(e: Extension): seq<Extension> {
    match e
    case Jpg => [PngFile, Webp]
    case PngFile => [Jpg, Webp]
    case Webp => [Jpg, PngFile]
  }

  /** What store does for an asset id, on a disk where the id's keys name its files. */
  function AssetCall(id: string, e: Extension, data: Bytes): Call {
    var others := OtherExtensions(e);
    Call(StorageKey(PREFIX, id, e), [StorageKey(PREFIX, id, others[0]), StorageKey(PREFIX, id, others[1])], data)
  }

  ghost predicate IsAssetCall(c: Call) {
    exists id, e, data :: c == AssetCall(id, e, data)
  }

  ghost predicate OnlyAssetCalls(s: State) {
    forall t :: 0 <= t < |s.threads| ==> IsAssetCall(s.threads[t].call)
  }

  lemma {:induction false} AssetCallsWatch(s: State, id: string, e: Extension, e': Extension)
    requires OnlyAssetCalls(s) && e != e'
    ensures Watches(s, StorageKey(PREFIX, id, e), StorageKey(PREFIX, id, e'))
  {
    hide StorageKey;
    forall t | 0 <= t < |s.threads| && s.threads[t].call.destination == StorageKey(PREFIX, id, e)
      ensures StorageKey(PREFIX, id, e') in s.threads[t].call.siblings
    {
      assert IsAssetCall(s.threads[t].call);
      var id0, e0, data :| s.threads[t].call == AssetCall(id0, e0, data);
      StorageKeyInjective(PREFIX, id, e, id0, e0);
      var others := OtherExtensions(e);
      assert others[0] == e' || others[1] == e';
      assert s.threads[t].call.siblings[0] == StorageKey(PREFIX, id, others[0]);
      assert s.threads[t].call.siblings[1] == StorageKey(PREFIX, id, others[1]);
    }
  }

  /** Over any run of any calls for any assets: an asset of which nothing was stored gets two extensions only
      if calls for both were under way while both were free. */
  lemma {:induction false} TwoExtensionsMeanOverlap(
    s: State, actions: seq<Action>, id: string, e: Extension, e': Extension)
    requires OnlyAssetCalls(s) && e != e'
    requires StorageKey(PREFIX, id, e) !in s.fs.links && StorageKey(PREFIX, id, e') !in s.fs.links
    requires StorageKey(PREFIX, id, e) in Run(s, actions).fs.links
            && StorageKey(PREFIX, id, e') in Run(s, actions).fs.links
    ensures exists n :: 0 <= n <= |actions| && Overlap(Run(s, actions[..n]), StorageKey(PREFIX, id, e),
            StorageKey(PREFIX, id, e'))
  {
    hide StorageKey, Run, Watches, OnlyAssetCalls, Overlap;
    if StorageKey(PREFIX, id, e) == StorageKey(PREFIX, id, e') {
      StorageKeyInjective(PREFIX, id, e, id, e');
    }
    AssetCallsWatch(s, id, e, e');
    AssetCallsWatch(s, id, e', e);
    BothLinkedMeansOverlap(s, actions, StorageKey(PREFIX, id, e), StorageKey(PREFIX, id, e'));
  }

  /** And two calls are enough: for any asset, extensions and bytes, from an empty store. */
  lemma {:induction false} TwoExtensionsOfOneAsset(id: string, e: Extension, e': Extension, data: Bytes, data': Bytes)
    returns (s: State, s': State)
    requires e != e' && data != [] && data' != []
    ensures s == State(FileSystem(map[], {}, []), [Thread(AssetCall(id, e, data), Start),
            Thread(AssetCall(id, e', data'), Start)])
    ensures OnlyAssetCalls(s) && Reaches(s, s') && Ended(s', 0, Success) && Ended(s', 1, Success)
    ensures StorageKey(PREFIX, id, e) in s'.fs.links && StorageKey(PREFIX, id, e') in s'.fs.links
  {
    hide StorageKey, Run, Reaches, Apply;
    s := State(FileSystem(map[], {}, []), [Thread(AssetCall(id, e, data), Start),
      Thread(AssetCall(id, e', data'), Start)]);
    assert IsAssetCall(s.threads[0].call) && IsAssetCall(s.threads[1].call);
    if StorageKey(PREFIX, id, e) == StorageKey(PREFIX, id, e') {
      StorageKeyInjective(PREFIX, id, e, id, e');
    }
    s' := OverlappingCallsBothSucceed(s, 0, 1);
  }
}
