/** Canonical JSON: the key-sorted printing every fingerprint, approval hash and signature is
    computed over (publishing-canonical.ts). */
module PublishingCanonical {
  import opened Text

  datatype Field = Field(key: string, value: Value)

  /** A JavaScript value as the contracts see it. `Unsupported` stands for what JSON has no form
      for: NaN, infinities, functions, symbols, big integers. */
  datatype Value =
    | Null
    | Undefined
    | Unsupported
    | Bool(b: bool)
    | Num(n: int)
    | Str(s: string)
    | Arr(items: seq<Value>)
    | Obj(fields: seq<Field>)

  /** Objects own each key once. */
  ghost predicate WellFormed(v: Value) {
    match v
    case Arr(items) => forall i :: 0 <= i < |items| ==> WellFormed(items[i])
    case Obj(fields) =>
      && DistinctKeys(fields)
      && forall i :: 0 <= i < |fields| ==> WellFormed(fields[i].value)
    case _ => true
  }

  ghost predicate DistinctKeys(fields: seq<Field>) {
    forall i, j :: 0 <= i < j < |fields| ==> fields[i].key != fields[j].key
  }

  // ----- Sorting -----

  function Insert(f: Field, sorted: seq<Field>, less: (string, string) -> bool): seq<Field> {
    if sorted == [] then [f]
    else if less(f.key, sorted[0].key) then [f] + sorted
    else [sorted[0]] + Insert(f, sorted[1..], less)
  }

  /** Array.prototype.sort on entries. */
  function Sort(fields: seq<Field>, less: (string, string) -> bool): seq<Field> {
    if fields == [] then [] else Insert(fields[0], Sort(fields[1..], less), less)
  }

  ghost predicate SortedBy(fields: seq<Field>, less: (string, string) -> bool) {
    forall i, j :: 0 <= i < j < |fields| ==> less(fields[i].key, fields[j].key)
  }

  ghost predicate SameMembers(a: seq<Field>, b: seq<Field>) {
    forall f :: f in a <==> f in b
  }

  lemma {:induction false} InsertSorts(f: Field, sorted: seq<Field>, less: (string, string) -> bool)
    requires StrictOrder(less) && SortedBy(sorted, less)
    requires forall g :: g in sorted ==> g.key != f.key
    ensures SortedBy(Insert(f, sorted, less), less)
    ensures SameMembers(Insert(f, sorted, less), [f] + sorted)
  {
    if sorted != [] && !less(f.key, sorted[0].key) {
      InsertSorts(f, sorted[1..], less);
      var rest := Insert(f, sorted[1..], less);
      assert sorted == [sorted[0]] + sorted[1..];
      forall g | g in rest ensures less(sorted[0].key, g.key) {
        assert g in [f] + sorted[1..];
        assert sorted[0] in sorted;
      }
      assert Insert(f, sorted, less) == [sorted[0]] + rest;
    }
  }

  lemma {:induction false} SortSorts(fields: seq<Field>, less: (string, string) -> bool)
    requires StrictOrder(less) && DistinctKeys(fields)
    ensures SortedBy(Sort(fields, less), less)
    ensures SameMembers(Sort(fields, less), fields)
  {
    if fields != [] {
      SortSorts(fields[1..], less);
      assert fields == [fields[0]] + fields[1..];
      forall g | g in Sort(fields[1..], less) ensures g.key != fields[0].key {
        assert g in fields[1..];
      }
      InsertSorts(fields[0], Sort(fields[1..], less), less);
    }
  }

  /** Strictly sorted lists are determined by their members. */
  lemma {:induction false} SortedUnique(a: seq<Field>, b: seq<Field>, less: (string, string) -> bool)
    requires StrictOrder(less) && SortedBy(a, less) && SortedBy(b, less)
    requires SameMembers(a, b)
    ensures a == b
  {
    assert a != [] ==> a[0] in a && a[0] in b;
    assert b != [] ==> b[0] in b && b[0] in a;
    if a != [] {
      assert a[0] == b[0];
      forall f ensures f in a[1..] <==> f in b[1..] {
        assert f in a[1..] <==> f in a && f != a[0];
        assert f in b[1..] <==> f in b && f != b[0];
      }
      SortedUnique(a[1..], b[1..], less);
      assert a == [a[0]] + a[1..] && b == [b[0]] + b[1..];
    }
  }

  function KeepIndexKeys(fields: seq<Field>, index: bool): seq<Field> {
    if fields == [] then []
    else (if IsIndexKey(fields[0].key) == index then [fields[0]] else []) + KeepIndexKeys(fields[1..], index)
  }

  /** Object.fromEntries: the new object lists array-index keys by number, then the other keys in
      the order they were added. */
  function FromEntries(entries: seq<Field>): seq<Field> {
    Sort(KeepIndexKeys(entries, true), OwnKeyBefore) + KeepIndexKeys(entries, false)
  }

  lemma {:induction false} KeepMembers(fields: seq<Field>, index: bool)
    ensures forall f :: f in KeepIndexKeys(fields, index) <==> f in fields && IsIndexKey(f.key) == index
    ensures SortedBy(fields, Before) ==> SortedBy(KeepIndexKeys(fields, index), Before)
  {
    if fields != [] {
      KeepMembers(fields[1..], index);
      assert fields == [fields[0]] + fields[1..];
    }
  }

  lemma {:induction false} FromEntriesOrders(entries: seq<Field>)
    requires SortedBy(entries, Before)
    ensures SortedBy(FromEntries(entries), OwnKeyBefore)
    ensures SameMembers(FromEntries(entries), entries)
  {
    BeforeIsStrictOrder();
    OwnKeyBeforeIsStrictOrder();
    var index, names := KeepIndexKeys(entries, true), KeepIndexKeys(entries, false);
    KeepMembers(entries, true);
    KeepMembers(entries, false);
    SortSorts(index, OwnKeyBefore);
    var sorted := Sort(index, OwnKeyBefore);
    var all: seq<Field> := sorted + names;
    forall i, j | 0 <= i < j < |all|
      ensures OwnKeyBefore(all[i].key, all[j].key)
    {
      if i < |sorted| <= j {
        assert sorted[i] in sorted && names[j - |sorted|] in names;
      } else if |sorted| <= i {
        assert names[i - |sorted|] in names && names[j - |sorted|] in names;
      }
    }
  }

  // ----- Canonicalizing -----

  /** canonicalizePublishingValue; None is the TypeError. Sorting the entries by key before or
      after canonicalizing their values is the same, since canonicalizing keeps keys. */
  function Canonicalize(v: Value): Option<Value> {
    match v
    case Undefined => None
    case Unsupported => None
    case Arr(items) =>
      (match CanonicalizeAll(items)
       case None => None
       case Some(c) => Some(Arr(c)))
    case Obj(fields) =>
      (match CanonicalizeFields(fields)
       case None => None
       case Some(c) => Some(Obj(FromEntries(Sort(c, Before)))))
    case _ => Some(v)
  }

  function CanonicalizeAll(items: seq<Value>): Option<seq<Value>> {
    if items == [] then Some([])
    else
      match (Canonicalize(items[0]), CanonicalizeAll(items[1..]))
      case (Some(c), Some(rest)) => Some([c] + rest)
      case _ => None
  }

  /** The defined fields, canonicalized, in the order the object lists them. */
  function CanonicalizeFields(fields: seq<Field>): Option<seq<Field>> {
    if fields == [] then Some([])
    else if fields[0].value.Undefined? then CanonicalizeFields(fields[1..])
    else
      match (Canonicalize(fields[0].value), CanonicalizeFields(fields[1..]))
      case (Some(c), Some(rest)) => Some([Field(fields[0].key, c)] + rest)
      case _ => None
  }

  /** What JSON has a form for: no undefined outside object fields, nothing unsupported. */
  ghost predicate Serializable(v: Value) {
    match v
    case Undefined => false
    case Unsupported => false
    case Arr(items) => forall i :: 0 <= i < |items| ==> Serializable(items[i])
    case Obj(fields) =>
      forall i :: 0 <= i < |fields| && !fields[i].value.Undefined? ==> Serializable(fields[i].value)
    case _ => true
  }

  /** Equal up to object key order and undefined-valued fields. */
  ghost predicate Equiv(a: Value, b: Value)
    decreases a
  {
    match (a, b)
    case (Arr(xs), Arr(ys)) =>
      && |xs| == |ys|
      && forall i :: 0 <= i < |xs| ==> Equiv(xs[i], ys[i])
    case (Obj(fa), Obj(fb)) =>
      && (forall k :: HasField(fa, k) <==> HasField(fb, k))
      && forall i, j ::
           && 0 <= i < |fa| && 0 <= j < |fb|
           && fa[i].key == fb[j].key
           && !fa[i].value.Undefined? && !fb[j].value.Undefined?
           ==> Equiv(fa[i].value, fb[j].value)
    case _ => a == b
  }

  ghost predicate HasField(fields: seq<Field>, k: string) {
    exists i :: 0 <= i < |fields| && fields[i].key == k && !fields[i].value.Undefined?
  }

  lemma {:induction false} CanonicalizeAllItems(items: seq<Value>)
    ensures CanonicalizeAll(items).Some? <==> forall i :: 0 <= i < |items| ==> Canonicalize(items[i]).Some?
    ensures CanonicalizeAll(items).Some? ==>
              var c := CanonicalizeAll(items).value;
              |c| == |items| && forall i :: 0 <= i < |items| ==> Some(c[i]) == Canonicalize(items[i])
  {
    if items != [] {
      CanonicalizeAllItems(items[1..]);
      assert forall i :: 0 <= i < |items| ==> items[i] == if i == 0 then items[0] else items[1..][i - 1];
    }
  }

  /** The canonical fields are the defined ones: by position, and as a set. */
  ghost predicate IsCanonicalField(fields: seq<Field>, i: int, f: Field)
    requires 0 <= i < |fields|
  {
    !fields[i].value.Undefined? && f.key == fields[i].key && Some(f.value) == Canonicalize(fields[i].value)
  }

  lemma {:induction false} CanonicalizeFieldsMembers(fields: seq<Field>)
    ensures CanonicalizeFields(fields).Some? <==>
            forall i :: 0 <= i < |fields| && !fields[i].value.Undefined? ==> Canonicalize(fields[i].value).Some?
    ensures CanonicalizeFields(fields).Some? ==>
              var c := CanonicalizeFields(fields).value;
              && (forall f :: f in c <==> exists i :: 0 <= i < |fields| && IsCanonicalField(fields, i, f))
              && (DistinctKeys(fields) ==> DistinctKeys(c))
  {
    if fields != [] {
      var tail := fields[1..];
      CanonicalizeFieldsMembers(tail);
      assert forall i :: 0 <= i < |fields| ==> fields[i] == if i == 0 then fields[0] else tail[i - 1];
      if CanonicalizeFields(fields).Some? {
        var c, rest := CanonicalizeFields(fields).value, CanonicalizeFields(tail).value;
        forall f ensures f in c <==> exists i :: 0 <= i < |fields| && IsCanonicalField(fields, i, f) {
          if f in rest {
            var i :| 0 <= i < |tail| && IsCanonicalField(tail, i, f);
            assert IsCanonicalField(fields, i + 1, f);
          } else if f in c {
            assert IsCanonicalField(fields, 0, f);
          }
          if i :| 0 <= i < |fields| && IsCanonicalField(fields, i, f) {
            if i > 0 { assert IsCanonicalField(tail, i - 1, f); }
          }
        }
        if DistinctKeys(fields) {
          assert DistinctKeys(tail);
          forall f | f in rest ensures f.key != fields[0].key {
            var i :| 0 <= i < |tail| && IsCanonicalField(tail, i, f);
            assert fields[i + 1].key == f.key;
          }
        }
      }
    }
  }

  /** The TypeError is thrown on exactly the values JSON has no form for. */
  lemma {:induction false} CanonicalizeThrows(v: Value)
    ensures Canonicalize(v).Some? <==> Serializable(v)
    decreases v
  {
    match v
    case Arr(items) =>
      forall i | 0 <= i < |items| { CanonicalizeThrows(items[i]); }
      CanonicalizeAllItems(items);
    case Obj(fields) =>
      forall i | 0 <= i < |fields| { CanonicalizeThrows(fields[i].value); }
      CanonicalizeFieldsMembers(fields);
    case _ =>
  }

  lemma {:induction false} CanonicalObjectFields(fields: seq<Field>)
    requires DistinctKeys(fields) && CanonicalizeFields(fields).Some?
    ensures var c := FromEntries(Sort(CanonicalizeFields(fields).value, Before));
            && SortedBy(c, OwnKeyBefore)
            && forall f :: f in c <==> exists i :: 0 <= i < |fields| && IsCanonicalField(fields, i, f)
  {
    var c := CanonicalizeFields(fields).value;
    CanonicalizeFieldsMembers(fields);
    BeforeIsStrictOrder();
    SortSorts(c, Before);
    FromEntriesOrders(Sort(c, Before));
  }

  /** Canonicalizing decides equality up to key order and undefined fields. */
  lemma {:induction false} CanonicalCompleteInvariant(a: Value, b: Value)
    requires WellFormed(a) && WellFormed(b)
    requires Canonicalize(a).Some? && Canonicalize(b).Some?
    ensures Canonicalize(a) == Canonicalize(b) <==> Equiv(a, b)
    decreases a
  {
    match (a, b)
    case (Arr(xs), Arr(ys)) =>
      CanonicalizeAllItems(xs);
      CanonicalizeAllItems(ys);
      forall i | 0 <= i < |xs| && |xs| == |ys| { CanonicalCompleteInvariant(xs[i], ys[i]); }
      var cx, cy := CanonicalizeAll(xs).value, CanonicalizeAll(ys).value;
      if Equiv(a, b) {
        assert forall i :: 0 <= i < |xs| ==> Some(cx[i]) == Some(cy[i]);
        assert cx == cy;
      } else if |xs| == |ys| {
        var i :| 0 <= i < |xs| && !Equiv(xs[i], ys[i]);
        assert cx[i] != cy[i];
      }
    case (Obj(fa), Obj(fb)) =>
      CanonicalizeFieldsMembers(fa);
      CanonicalizeFieldsMembers(fb);
      forall i, j | 0 <= i < |fa| && 0 <= j < |fb| && !fa[i].value.Undefined? && !fb[j].value.Undefined? {
        CanonicalCompleteInvariant(fa[i].value, fb[j].value);
      }
      ObjectsCanonicalIffEquiv(fa, fb);
    case _ =>
  }

  lemma {:induction false} ObjectsCanonicalIffEquiv(fa: seq<Field>, fb: seq<Field>)
    requires DistinctKeys(fa) && DistinctKeys(fb)
    requires CanonicalizeFields(fa).Some? && CanonicalizeFields(fb).Some?
    requires forall i, j :: 0 <= i < |fa| && 0 <= j < |fb| && !fa[i].value.Undefined? && !fb[j].value.Undefined? ==>
               (Canonicalize(fa[i].value) == Canonicalize(fb[j].value) <==> Equiv(fa[i].value, fb[j].value))
    ensures Canonicalize(Obj(fa)) == Canonicalize(Obj(fb)) <==> Equiv(Obj(fa), Obj(fb))
  {
    hide CanonicalizeFields, Sort, FromEntries, Before, OwnKeyBefore, HasField, IsCanonicalField;
    CanonicalizeFieldsMembers(fa);
    CanonicalizeFieldsMembers(fb);
    CanonicalObjectFields(fa);
    CanonicalObjectFields(fb);
    var ca := FromEntries(Sort(CanonicalizeFields(fa).value, Before));
    var cb := FromEntries(Sort(CanonicalizeFields(fb).value, Before));
    if Equiv(Obj(fa), Obj(fb)) {
      forall k ensures HasField(fa, k) <==> HasField(fb, k) {}
      CanonicalSubset(fa, fb);
      CanonicalSubset(fb, fa);
      OwnKeyBeforeIsStrictOrder();
      SortedUnique(ca, cb, OwnKeyBefore);
    }
    if ca == cb {
      SameCanonicalGivesEquiv(fa, fb, ca);
    }
  }

  lemma {:induction false} CanonicalSubset(fa: seq<Field>, fb: seq<Field>)
    requires CanonicalizeFields(fa).Some?
    requires forall k :: HasField(fa, k) <==> HasField(fb, k)
    requires forall i, j ::
               && 0 <= i < |fa| && 0 <= j < |fb| && fa[i].key == fb[j].key
               && !fa[i].value.Undefined? && !fb[j].value.Undefined? ==>
               Canonicalize(fa[i].value) == Canonicalize(fb[j].value)
    ensures forall f, i :: 0 <= i < |fa| && IsCanonicalField(fa, i, f) ==>
              exists j :: 0 <= j < |fb| && IsCanonicalField(fb, j, f)
  {
    forall f, i | 0 <= i < |fa| && IsCanonicalField(fa, i, f)
      ensures exists j :: 0 <= j < |fb| && IsCanonicalField(fb, j, f)
    {
      assert HasField(fa, f.key);
      var j :| 0 <= j < |fb| && fb[j].key == f.key && !fb[j].value.Undefined?;
      assert IsCanonicalField(fb, j, f);
    }
  }

  lemma {:induction false} SameCanonicalGivesEquiv(fa: seq<Field>, fb: seq<Field>, c: seq<Field>)
    requires DistinctKeys(fa) && DistinctKeys(fb)
    requires CanonicalizeFields(fa).Some? && CanonicalizeFields(fb).Some?
    requires forall f :: f in c <==> exists i :: 0 <= i < |fa| && IsCanonicalField(fa, i, f)
    requires forall f :: f in c <==> exists i :: 0 <= i < |fb| && IsCanonicalField(fb, i, f)
    requires forall i, j :: 0 <= i < |fa| && 0 <= j < |fb| && !fa[i].value.Undefined? && !fb[j].value.Undefined? ==>
               (Canonicalize(fa[i].value) == Canonicalize(fb[j].value) <==> Equiv(fa[i].value, fb[j].value))
    ensures Equiv(Obj(fa), Obj(fb))
  {
    CanonicalizeFieldsMembers(fa);
    CanonicalizeFieldsMembers(fb);
    forall k ensures HasField(fa, k) <==> HasField(fb, k) {
      if i :| 0 <= i < |fa| && fa[i].key == k && !fa[i].value.Undefined? {
        var f := Field(k, Canonicalize(fa[i].value).value);
        assert IsCanonicalField(fa, i, f);
        assert f in c;
      }
      if i :| 0 <= i < |fb| && fb[i].key == k && !fb[i].value.Undefined? {
        var f := Field(k, Canonicalize(fb[i].value).value);
        assert IsCanonicalField(fb, i, f);
        assert f in c;
      }
    }
    forall i, j | 0 <= i < |fa| && 0 <= j < |fb| && fa[i].key == fb[j].key
      && !fa[i].value.Undefined? && !fb[j].value.Undefined?
      ensures Equiv(fa[i].value, fb[j].value)
    {
      var f := Field(fa[i].key, Canonicalize(fa[i].value).value);
      assert IsCanonicalField(fa, i, f);
      assert f in c;
      var j' :| 0 <= j' < |fb| && IsCanonicalField(fb, j', f);
      assert j' == j;
    }
  }
}
