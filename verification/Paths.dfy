/** How storage keys resolve when no link lies under the root: components, with dots removed. What that makes
    of the filesystem driver: for ids without a slash it is the write-once map, for others it need not be. */
module Paths {
  import opened Text
  import opened Fingerprints
  import opened AssetStorage
  import opened FileStorage

  /** The texts between the slashes. */
  function Split(s: string): (cs: seq<string>)
    ensures cs != []
  {
    if s == "" then [""]
    else
      Push(s[0], Split(s[1..]))
  }

  /** One more character in front. */
  function Push(c: char, cs: seq<string>): (r: seq<string>)
    requires cs != []
    ensures r != []
  {
    if c == '/' then [""] + cs else cs[0 := [c] + cs[0]]
  }

  function Enter(p: Path, c: string): Path {
    if c == "" || c == "." then p
    else if c == ".." then Parent(p)
    else p + [c]
  }

  function Walk(p: Path, cs: seq<string>): Path
    decreases |cs|
  {
    if cs == [] then p else Walk(Enter(p, cs[0]), cs[1..])
  }

  /** (root / key).resolve(): an absolute key replaces the root, and one of exactly two slashes is a root of
      its own. */
  function Resolve(root: Path, key: string): Option<Path> {
    var p := Walk(if key != "" && key[0] == '/' then [] else root, Split(key));
    if "//" <= key && !("///" <= key) then None
    else if root <= p then Some(p)
    else None
  }

  /** Every directory that the temporary name of an id, which starts with a dot, passes through. */
  function PassedDirectories(parent: Path, id: string): set<Path> {
    var cs := Split("." + id + ".");
    set i | 1 <= i < |cs| :: Walk(parent, cs[..i])
  }

  function LexicalLayout(root: Path): Layout {
    Layout((key: string) => Resolve(root, key), (parent: Path, id: string) => PassedDirectories(parent, id))
  }

  // ----- Splitting and walking -----

  lemma {:induction false} SplitSlash(a: string, b: string)
    requires '/' !in a
    ensures Split(a + "/" + b) == [a] + Split(b)
  {
    if a == "" {
      assert (a + "/" + b)[1..] == b;
    } else {
      SplitSlash(a[1..], b);
      var rest := a[1..] + "/" + b;
      assert a + "/" + b == [a[0]] + rest && (a + "/" + b)[1..] == rest;
      assert Split(rest)[0] == a[1..] && Split(rest)[1..] == Split(b) && [a[0]] + a[1..] == a;
    }
  }

  lemma {:induction false} SplitPlain(a: string)
    requires '/' !in a
    ensures Split(a) == [a]
  {
    if a != "" {
      SplitPlain(a[1..]);
      assert [a[0]] + a[1..] == a;
    }
  }

  lemma {:induction false} SplitPrefix(rest: string)
    ensures Split(PREFIX + rest) == ["content", "generated"] + Split(rest)
    ensures (PREFIX + rest)[0] == 'c'
  {
    var a, b := "content", "generated";
    assert PREFIX == a + "/" + b + "/" && '/' !in a && '/' !in b;
    assert PREFIX + rest == a + "/" + (b + "/" + rest);
    hide Split, PREFIX;
    SplitSlash(a, b + "/" + rest);
    SplitSlash(b, rest);
  }

  /** A component that names something. */
  predicate IsName(c: string) {
    '/' !in c && c != "" && c != "." && c != ".."
  }

  function Folder(root: Path): Path {
    root + ["content", "generated"]
  }

  lemma {:induction false} ResolvePrefix(root: Path, rest: string)
    ensures Resolve(root, PREFIX + rest) ==
            (var p := Walk(Folder(root), Split(rest)); if root <= p then Some(p) else None)
  {
    SplitPrefix(rest);
    var cs := Split(rest);
    var all := ["content", "generated"] + cs;
    assert all[1..] == ["generated"] + cs && all[1..][1..] == cs;
    assert Enter(Enter(root, "content"), "generated") == Folder(root);
    assert Walk(root, all) == Walk(Folder(root), cs);
    hide Split, Walk;
  }

  lemma {:induction false} FileNameIsName(id: string, e: Extension)
    requires '/' !in id
    ensures IsName(id + Suffix(e))
  {
    assert |Suffix(e)| >= 4;
  }

  /** The file of an asset whose id holds no slash lies in the folder, under the id and its suffix. */
  lemma {:induction false} PlainPath(root: Path, id: string, e: Extension)
    requires '/' !in id
    ensures PathOf(LexicalLayout(root), id, e) == Some(Folder(root) + [id + Suffix(e)])
  {
    var name := id + Suffix(e);
    FileNameIsName(id, e);
    assert StorageKey(PREFIX, id, e) == PREFIX + name;
    ResolvePrefix(root, name);
    SplitPlain(name);
    assert Walk(Folder(root), [name]) == Folder(root) + [name] by {
      assert [name][1..] == [];
    }
    hide Resolve, Split, Walk;
  }

  lemma {:induction false} PlainPassesNothing(parent: Path, id: string)
    requires '/' !in id
    ensures PassedDirectories(parent, id) == {}
  {
    SplitPlain("." + id + ".");
  }

  // ----- Ids without a slash -----

  predicate Plain(id: string) {
    '/' !in id
  }

  /** A root under which nothing was put into the folder yet. */
  ghost predicate FreshFolder(root: Path, start: set<Path>) {
    forall d :: d in start ==> |d| <= |root| + 2
  }

  lemma {:induction false} PlainReachable(root: Path, start: set<Path>, id: string, e: Extension)
    requires FreshFolder(root, start) && Plain(id)
    ensures PathOf(LexicalLayout(root), id, e).Some? && Reachable(LexicalLayout(root), start, id, e)
  {
    hide PathOf, Ancestors, PassedDirectories, Resolve;
    PlainPath(root, id, e);
    PlainPassesNothing(Parent(PathOf(LexicalLayout(root), id, e).value), id);
  }

  lemma {:induction false} PlainApart(root: Path, id: string, e: Extension, id': string, e': Extension)
    requires Plain(id) && Plain(id') && (id, e) != (id', e')
    ensures Apart(LexicalLayout(root), id, e, id', e')
  {
    hide PathOf, Resolve, PassedDirectories, Suffix;
    PlainPath(root, id, e);
    PlainPath(root, id', e');
    var p, p' := Folder(root) + [id + Suffix(e)], Folder(root) + [id' + Suffix(e')];
    assert p[|p| - 1] == id + Suffix(e) && p'[|p'| - 1] == id' + Suffix(e');
    if id + Suffix(e) == id' + Suffix(e') {
      assert StorageKey("", id, e) == id + Suffix(e) && StorageKey("", id', e') == id' + Suffix(e');
      StorageKeyInjective("", id, e, id', e');
    }
    forall a | a in Ancestors(p') ensures |a| < |p| {
    }
  }

  lemma {:induction false} PlainIdsClear(root: Path, start: set<Path>)
    requires FreshFolder(root, start)
    ensures AllInside(LexicalLayout(root), Plain) && Clear(LexicalLayout(root), start, Plain)
  {
    hide PathOf, Resolve, PassedDirectories, Reachable, Apart, FreshFolder, LexicalLayout;
    forall id, e | Plain(id) ensures PathOf(LexicalLayout(root), id, e).Some?
      && Reachable(LexicalLayout(root), start, id, e) {
      PlainReachable(root, start, id, e);
    }
    forall id, e, id', e' | Plain(id) && Plain(id') && (id, e) != (id', e')
      ensures Apart(LexicalLayout(root), id, e, id', e')
    {
      PlainApart(root, id, e, id', e');
    }
  }

  /** For ids without a slash the filesystem driver is the write-once map: every call of every run is answered
      as the map answers it, and the disk holds exactly the map's assets. */
  lemma {:induction false} PlainIdsAgree(host: Host, root: Path, start: set<Path>, calls: seq<StoreCall>)
    requires FreshFolder(root, start) && OnlyIds(Plain, calls)
    ensures AnswersLikeMap(host, LexicalLayout(root), start, calls, |calls|)
    ensures AllInside(LexicalLayout(root), Plain)
    ensures DiskRepresents(LexicalLayout(root), start, Plain,
            DiskAfter(host, LexicalLayout(root), start, calls, |calls|), MapAfter(host, calls, |calls|))
  {
    hide FileStore, StoreSpec, Resolve, Clear, DiskRepresents;
    PlainIdsClear(root, start);
    ClearRunAgrees(host, LexicalLayout(root), start, Plain, calls, |calls|);
  }

  // ----- Ids with a slash -----

  /** An id a/b is refused on a fresh root, under every extension and for any bytes: mkstemp would need a
      directory named .a, which nothing makes. The map stores it. */
  lemma {:induction false} SlashedIdRefused(
    host: Host, root: Path, start: set<Path>, a: string, b: string, c: StoreCall)
    requires FreshFolder(root, start) && IsName(a) && Plain(b) && c.assetId == a + "/" + b
    ensures FileStore(host, LexicalLayout(root), Disk(map[], start), c).1.Raises?
    ensures c.data != [] && ExtensionOf(c.mimeType).Some? ==> StoreSpec(host, PREFIX, map[], c).1.Stores?
  {
    hide StorageKey, ExtensionOf, SiblingError, PassedDirectories, Resolve;
    if c.data != [] && ExtensionOf(c.mimeType).Some? {
      var e := ExtensionOf(c.mimeType).value;
      SlashedPath(root, a, b, e);
      SlashedPasses(Folder(root) + [a], a, b);
      var p := Folder(root) + [a, b + Suffix(e)];
      var needed := Folder(root) + [a, "." + a];
      assert Parent(p) == Folder(root) + [a];
      assert needed !in Ancestors(p) by {
        forall q | q in Ancestors(p) ensures |q| < |needed| {
        }
      }
      assert needed !in start;
    }
  }

  lemma {:induction false} SlashedPath(root: Path, a: string, b: string, e: Extension)
    requires IsName(a) && Plain(b)
    ensures PathOf(LexicalLayout(root), a + "/" + b, e) == Some(Folder(root) + [a, b + Suffix(e)])
  {
    var name := b + Suffix(e);
    FileNameIsName(b, e);
    assert StorageKey(PREFIX, a + "/" + b, e) == PREFIX + (a + "/" + name);
    ResolvePrefix(root, a + "/" + name);
    SplitSlash(a, name);
    SplitPlain(name);
    assert [a, name][1..] == [name] && [name][1..] == [];
    assert Walk(Folder(root), [a, name]) == Walk(Folder(root) + [a], [name]) == Folder(root) + [a, name];
    hide Resolve, Split, Walk;
  }

  lemma {:induction false} SlashedPasses(parent: Path, a: string, b: string)
    requires IsName(a) && Plain(b)
    ensures parent + ["." + a] in PassedDirectories(parent, a + "/" + b)
  {
    var first, last := "." + a, b + ".";
    assert "." + (a + "/" + b) + "." == first + "/" + last;
    SplitSlash(first, last);
    SplitPlain(last);
    var cs := Split("." + (a + "/" + b) + ".");
    assert cs == [first, last] && cs[..1] == [first] && [first][1..] == [];
    assert IsName(first);
    assert Walk(parent, cs[..1]) == parent + [first];
  }

  lemma {:induction false} DottedPath(root: Path, a: string, b: string)
    requires IsName(a) && Plain(b)
    ensures PathOf(LexicalLayout(root), a + "/../" + b, Jpg) == PathOf(LexicalLayout(root), b, Jpg)
  {
    hide Split, Resolve, PathOf;
    var name := b + Suffix(Jpg);
    FileNameIsName(b, Jpg);
    DottedKey(root, a, b, name);
    SplitSlash(a, ".." + "/" + name);
    SplitSlash("..", name);
    SplitPlain(name);
    PlainPath(root, b, Jpg);
    WalkBack(Folder(root), a, name);
  }

  lemma {:induction false} DottedKey(root: Path, a: string, b: string, name: string)
    requires name == b + Suffix(Jpg)
    ensures PathOf(LexicalLayout(root), a + "/../" + b, Jpg) ==
            (var p := Walk(Folder(root), Split(a + "/" + (".." + "/" + name))); if root <= p then Some(p) else None)
  {
    hide Split, Walk;
    var rest := a + "/" + (".." + "/" + name);
    assert StorageKey(PREFIX, a + "/../" + b, Jpg) == PREFIX + rest;
    ResolvePrefix(root, rest);
  }

  lemma {:induction false} WalkBack(folder: Path, a: string, name: string)
    requires IsName(a) && IsName(name)
    ensures Walk(folder, [a] + ([".."] + [name])) == folder + [name]
  {
    var cs := [a] + ([".."] + [name]);
    assert cs[1..] == ["..", name] && cs[1..][1..] == [name] && [name][1..] == [];
    assert Parent(folder + [a]) == folder;
    assert Walk(folder, cs) == Walk(folder + [a], ["..", name]) == Walk(folder, [name]) == folder + [name];
  }

  lemma {:induction false} DottedNotClear(root: Path, start: set<Path>, ids: string -> bool, a: string, b: string)
    requires IsName(a) && Plain(b) && AllInside(LexicalLayout(root), ids) && ids(b) && ids(a + "/../" + b)
    ensures !Clear(LexicalLayout(root), start, ids)
  {
    var dotted := a + "/../" + b;
    assert |dotted| > |b|;
    hide PathOf, Ancestors;
    DottedPath(root, a, b);
    assert !Apart(LexicalLayout(root), dotted, Jpg, b, Jpg);
  }

  /** Two spellings of one file: a/../b is where b is, so some run over the two assets is not answered like the
      map. */
  lemma {:induction false} DottedIdCollides(
    host: Host, root: Path, start: set<Path>, ids: string -> bool, a: string, b: string)
    requires IsName(a) && Plain(b) && AllInside(LexicalLayout(root), ids) && ids(b) && ids(a + "/../" + b)
    ensures PathOf(LexicalLayout(root), a + "/../" + b, Jpg) == PathOf(LexicalLayout(root), b, Jpg)
    ensures !AlwaysAnswersLikeMap(host, LexicalLayout(root), start, ids)
  {
    hide PathOf, Clear, AlwaysAnswersLikeMap, LexicalLayout, AllInside;
    DottedPath(root, a, b);
    DottedNotClear(root, start, ids, a, b);
    AnswersLikeMapIffClear(host, LexicalLayout(root), start, ids);
  }

  /** A key with a dot in it retrieves what the key without it does. */
  lemma {:induction false} DottedKeyRetrieves(root: Path, disk: Disk, rest: string)
    ensures FileRetrieve(LexicalLayout(root), disk, PREFIX + "./" + rest) == FileRetrieve(LexicalLayout(root), disk,
            PREFIX + rest)
  {
    assert PREFIX + "./" + rest == PREFIX + ("." + "/" + rest);
    ResolvePrefix(root, "." + "/" + rest);
    ResolvePrefix(root, rest);
    SplitSlash(".", rest);
    assert (["."] + Split(rest))[1..] == Split(rest);
  }

  // ----- The extensions of one asset -----

  function AppendToLast(cs: seq<string>, t: string): seq<string>
    requires cs != []
  {
    cs[|cs| - 1 := cs[|cs| - 1] + t]
  }

  lemma {:induction false} PushKeepsLast(c: char, cs: seq<string>, t: string)
    requires cs != []
    ensures Push(c, AppendToLast(cs, t)) == AppendToLast(Push(c, cs), t)
  {
    assert [c] + (cs[0] + t) == ([c] + cs[0]) + t;
  }

  lemma {:induction false} SplitAppend(s: string, t: string)
    requires '/' !in t
    ensures Split(s + t) == AppendToLast(Split(s), t)
  {
    if s == "" {
      SplitPlain(t);
      assert "" + t == t;
    } else {
      SplitAppend(s[1..], t);
      assert (s + t)[1..] == s[1..] + t && (s + t)[0] == s[0];
      PushKeepsLast(s[0], Split(s[1..]), t);
      hide Push, AppendToLast;
    }
  }

  lemma {:induction false} WalkAppend(p: Path, cs: seq<string>, c: string)
    ensures Walk(p, cs + [c]) == Enter(Walk(p, cs), c)
    decreases |cs|
  {
    if cs != [] {
      WalkAppend(Enter(p, cs[0]), cs[1..], c);
      assert (cs + [c])[1..] == cs[1..] + [c];
    } else {
      assert ([] + [c])[1..] == [];
    }
  }

  lemma {:induction false} SuffixIsName(x: string, e: Extension)
    ensures '/' !in Suffix(e) && ('/' !in x ==> IsName(x + Suffix(e)))
  {
  }

  lemma {:induction false} SplitHasNoSlash(s: string, i: nat)
    requires i < |Split(s)|
    ensures '/' !in Split(s)[i]
  {
    if s != "" && i < |Split(s[1..])| {
      SplitHasNoSlash(s[1..], i);
    }
    if s != "" && 0 < i <= |Split(s[1..])| {
      SplitHasNoSlash(s[1..], i - 1);
    }
  }

  lemma {:induction false} PathEnds(root: Path, id: string, e: Extension)
    requires PathOf(LexicalLayout(root), id, e).Some?
    ensures var cs := Split(id);
            PathOf(LexicalLayout(root), id, e).value == Walk(Folder(root), cs[..|cs| - 1]) + [cs[|cs| - 1] + Suffix(e)]
  {
    hide Walk, Split;
    assert StorageKey(PREFIX, id, e) == PREFIX + (id + Suffix(e));
    ResolvePrefix(root, id + Suffix(e));
    var cs := Split(id);
    SplitHasNoSlash(id, |cs| - 1);
    SuffixIsName(cs[|cs| - 1], e);
    SplitAppend(id, Suffix(e));
    assert AppendToLast(cs, Suffix(e)) == cs[..|cs| - 1] + [cs[|cs| - 1] + Suffix(e)];
    WalkAppend(Folder(root), cs[..|cs| - 1], cs[|cs| - 1] + Suffix(e));
  }

  /** The three keys of one asset never lead to one file, whatever the id. */
  lemma {:induction false} LexicalOwnPathsApart(root: Path, id: string)
    ensures OwnPathsApart(LexicalLayout(root), id)
  {
    hide PathOf, Resolve, Walk, Split;
    var layout := LexicalLayout(root);
    forall e, e' | PathOf(layout, id, e).Some? && PathOf(layout, id, e) == PathOf(layout, id, e') ensures e == e' {
      PathEnds(root, id, e);
      PathEnds(root, id, e');
      var cs := Split(id);
      var folder, last := Walk(Folder(root), cs[..|cs| - 1]), cs[|cs| - 1];
      assert (folder + [last + Suffix(e)])[|folder|] == (folder + [last + Suffix(e')])[|folder|];
      assert StorageKey("", last, e) == last + Suffix(e) && StorageKey("", last, e') == last + Suffix(e');
      StorageKeyInjective("", last, e, last, e');
    }
  }
}
