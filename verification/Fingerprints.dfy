/** Fingerprints over canonical JSON, and what canonical printing guarantees about them. */
module Fingerprints {
  import opened Text
  import opened PublishingCanonical
  import opened JsonText

  /** What the contracts call out to. Nothing is assumed of these functions beyond what a lemma
      states in its requires. */
  datatype Host = Host(
    /** Lower-case hexadecimal SHA-256 of the UTF-8 form of a text. */
    sha256: string -> string,
    /** Lower-case hexadecimal HMAC-SHA-256 of a text under a secret. */
    hmacSha256: (string, string) -> string,
    /** Lower-case hexadecimal SHA-256 of bytes. */
    sha256Bytes: Bytes -> string,
    /** Date.parse in milliseconds; None is NaN. */
    dateParse: string -> Option<int>,
    /** Whether a Cairo wall-clock time and a UTC instant agree. */
    cairoAgrees: (string, string) -> bool,
    /** Whether a URL is HTTPS, or HTTP on the local host. */
    safeUrl: string -> bool,
    /** The candidate checksum, printed in locale order without the checksum field. */
    candidateChecksum: Value -> string,
    /** String(v) on what is neither a text nor an integer. */
    toText: Value -> string)

  function CanonicalPublishingJson(v: Value): Option<string> {
    match Canonicalize(v)
    case None => None
    case Some(c) => Some(Print(c))
  }

  /** computePublishingSha256; None is the TypeError of canonicalizing. */
  function ComputePublishingSha256(host: Host, v: Value): Option<string> {
    match CanonicalPublishingJson(v)
    case None => None
    case Some(text) => Some(host.sha256(text))
  }

  lemma {:induction false} CanonicalShape(v: Value)
    requires WellFormed(v) && Canonicalize(v).Some?
    ensures Plain(Canonicalize(v).value) && WellFormed(Canonicalize(v).value)
    ensures Canonicalize(Canonicalize(v).value) == Canonicalize(v)
    decreases v
  {
    match v
    case Arr(items) =>
      CanonicalizeAllItems(items);
      var c := CanonicalizeAll(items).value;
      forall i | 0 <= i < |c|
        ensures Plain(c[i]) && WellFormed(c[i]) && Canonicalize(c[i]) == Some(c[i])
      {
        CanonicalShape(items[i]);
      }
      CanonicalizeAllItems(c);
      assert CanonicalizeAll(c).value == c;
    case Obj(fields) =>
      CanonicalObjectFields(fields);
      CanonicalizeFieldsMembers(fields);
      var c := FromEntries(Sort(CanonicalizeFields(fields).value, Before));
      forall f | f in c
        ensures Plain(f.value) && WellFormed(f.value) && Canonicalize(f.value) == Some(f.value)
      {
        var i :| 0 <= i < |fields| && IsCanonicalField(fields, i, f);
        CanonicalShape(fields[i].value);
      }
      SortedFieldsCanonical(c);
    case _ =>
  }

  lemma {:induction false} CanonicalFieldsAreMembers(c: seq<Field>)
    requires forall i :: 0 <= i < |c| ==> Canonicalize(c[i].value) == Some(c[i].value)
    ensures CanonicalizeFields(c).Some?
    ensures forall f :: f in c <==> exists i :: 0 <= i < |c| && IsCanonicalField(c, i, f)
  {
    CanonicalizeFieldsMembers(c);
    forall f ensures f in c <==> exists i :: 0 <= i < |c| && IsCanonicalField(c, i, f) {
      if i :| 0 <= i < |c| && c[i] == f {
        assert IsCanonicalField(c, i, f);
      }
      if i :| 0 <= i < |c| && IsCanonicalField(c, i, f) {
        assert f == c[i];
      }
    }
  }

  lemma {:induction false} SortedIsDistinct(c: seq<Field>)
    requires SortedBy(c, OwnKeyBefore)
    ensures DistinctKeys(c)
  {
    hide OwnKeyBefore;
    OwnKeyBeforeIsStrictOrder();
  }

  /** Sorted fields with canonical values are their own canonical form. */
  lemma {:induction false} SortedFieldsCanonical(c: seq<Field>)
    requires SortedBy(c, OwnKeyBefore)
    requires forall f :: f in c ==> Canonicalize(f.value) == Some(f.value)
    ensures DistinctKeys(c) && Canonicalize(Obj(c)) == Some(Obj(c))
  {
    hide OwnKeyBefore, Before, StrictOrder, Sort, FromEntries, SortedBy, DistinctKeys;
    assert forall i :: 0 <= i < |c| ==> c[i] in c;
    CanonicalFieldsAreMembers(c);
    SortedIsDistinct(c);
    CanonicalObjectFields(c);
    OwnKeyBeforeIsStrictOrder();
    SortedUnique(FromEntries(Sort(CanonicalizeFields(c).value, Before)), c, OwnKeyBefore);
  }

  /** The canonical printing is a complete invariant: two values print alike exactly when they are
      equal up to key order and undefined fields. */
  lemma {:induction false} CanonicalJsonIffEquiv(a: Value, b: Value)
    requires WellFormed(a) && WellFormed(b) && Serializable(a) && Serializable(b)
    ensures CanonicalPublishingJson(a).Some? && CanonicalPublishingJson(b).Some?
    ensures CanonicalPublishingJson(a) == CanonicalPublishingJson(b) <==> Equiv(a, b)
  {
    CanonicalizeThrows(a);
    CanonicalizeThrows(b);
    CanonicalCompleteInvariant(a, b);
    CanonicalShape(a);
    CanonicalShape(b);
    ParsePrint(Canonicalize(a).value);
    ParsePrint(Canonicalize(b).value);
  }

  /** Reading the canonical text gives the canonical value, which is equal to the original up to
      key order and prints to the same text again. */
  lemma {:induction false} CanonicalJsonRoundTrip(v: Value)
    requires WellFormed(v) && Serializable(v)
    ensures CanonicalPublishingJson(v).Some?
    ensures var back := Parse(CanonicalPublishingJson(v).value);
            && back == Canonicalize(v)
            && Equiv(v, back.value)
            && CanonicalPublishingJson(back.value) == CanonicalPublishingJson(v)
  {
    CanonicalizeThrows(v);
    CanonicalShape(v);
    ParsePrint(Canonicalize(v).value);
    CanonicalCompleteInvariant(v, Canonicalize(v).value);
  }

  /** Two different texts with one digest. */
  ghost predicate Collision(host: Host, s: string, t: string) {
    s != t && host.sha256(s) == host.sha256(t)
  }

  ghost predicate FingerprintCollision(host: Host, a: Value, b: Value) {
    && CanonicalPublishingJson(a).Some? && CanonicalPublishingJson(b).Some?
    && Collision(host, CanonicalPublishingJson(a).value, CanonicalPublishingJson(b).value)
  }

  /** A fingerprint binds the document: equal fingerprints mean equal documents up to key order,
      unless the two canonical texts are a hash collision. Equal documents always agree. */
  lemma {:induction false} FingerprintBinds(host: Host, a: Value, b: Value)
    requires WellFormed(a) && WellFormed(b)
    requires ComputePublishingSha256(host, a).Some? && ComputePublishingSha256(host, b).Some?
    ensures ComputePublishingSha256(host, a) == ComputePublishingSha256(host, b) <==>
            Equiv(a, b) || FingerprintCollision(host, a, b)
  {
    CanonicalizeThrows(a);
    CanonicalizeThrows(b);
    CanonicalJsonIffEquiv(a, b);
  }

  lemma {:induction false} EquivKeepsSerializable(a: Value, b: Value)
    requires Equiv(a, b) && Serializable(a) && WellFormed(a) && WellFormed(b)
    ensures Serializable(b)
    decreases a
  {
    match (a, b)
    case (Arr(xs), Arr(ys)) =>
      forall i | 0 <= i < |xs| { EquivKeepsSerializable(xs[i], ys[i]); }
    case (Obj(fa), Obj(fb)) =>
      forall j | 0 <= j < |fb| && !fb[j].value.Undefined?
        ensures Serializable(fb[j].value)
      {
        assert HasField(fb, fb[j].key);
        var i :| 0 <= i < |fa| && fa[i].key == fb[j].key && !fa[i].value.Undefined?;
        EquivKeepsSerializable(fa[i].value, fb[j].value);
      }
    case _ =>
  }

  /** Reordering keys or adding undefined fields never changes a fingerprint. */
  lemma {:induction false} FingerprintIgnoresKeyOrder(host: Host, a: Value, b: Value)
    requires WellFormed(a) && WellFormed(b) && Equiv(a, b)
    requires ComputePublishingSha256(host, a).Some?
    ensures ComputePublishingSha256(host, b) == ComputePublishingSha256(host, a)
  {
    CanonicalizeThrows(a);
    EquivKeepsSerializable(a, b);
    CanonicalJsonIffEquiv(a, b);
  }
}
