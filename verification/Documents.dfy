/** Building documents from key lists, and reading them back. */
module Documents {
  import opened Text
  import opened PublishingCanonical
  import opened PublicationCandidate

  function Object(keys: seq<string>, values: seq<Value>): Value
    requires |keys| == |values|
  {
    Obj(seq(|keys|, i requires 0 <= i < |keys| => Field(keys[i], values[i])))
  }

  function CodeAt(s: string, i: int): (code: int)
    ensures 0 <= code < 0x110000
  {
    if 0 <= i < |s| then s[i] as int else 0
  }

  /** Length, first, fourth and fourth last character tell the keys of one document apart here. */
  function Mark(key: string): int {
    ((|key| * 0x110000 + CodeAt(key, 0)) * 0x110000 + CodeAt(key, 3)) * 0x110000 + CodeAt(key, |key| - 4)
  }

  ghost predicate MarksGrow(keys: seq<string>) {
    forall i, j :: 0 <= i < j < |keys| ==> Mark(keys[i]) < Mark(keys[j])
  }

  lemma {:induction false} NeighboursSuffice(keys: seq<string>)
    requires forall i :: 0 < i < |keys| ==> Mark(keys[i - 1]) < Mark(keys[i])
    ensures MarksGrow(keys)
  {
    hide Mark;
    if keys != [] {
      var n := |keys| - 1;
      NeighboursSuffice(keys[..n]);
      forall i, j | 0 <= i < j < |keys| ensures Mark(keys[i]) < Mark(keys[j]) {
        if j == n && i < n - 1 {
          assert Mark(keys[..n][i]) < Mark(keys[..n][n - 1]);
        } else if j < n {
          assert Mark(keys[..n][i]) < Mark(keys[..n][j]);
        }
      }
    }
  }

  /** With marks that grow, reading a key finds its own value. */
  lemma {:induction false} GetAt(keys: seq<string>, values: seq<Value>, i: nat)
    requires |keys| == |values| && i < |keys| && MarksGrow(keys)
    ensures Get(Object(keys, values), keys[i]) == values[i]
  {
    hide Mark;
    forall j | 0 <= j < i ensures keys[j] != keys[i] {
      assert Mark(keys[j]) < Mark(keys[i]);
    }
    LookupAt(Object(keys, values).fields, i);
  }

  /** An object whose keys are allowed passes the field check. */
  lemma {:induction false} AllowedObject(keys: seq<string>, values: seq<Value>, allowed: set<string>)
    requires |keys| == |values| && forall i :: 0 <= i < |keys| ==> keys[i] in allowed
    ensures OnlyFields(Object(keys, values), allowed) && NoExtraField(Object(keys, values), allowed)
  {
    hide IsIndexKey, FirstOutside;
    NoExtraFieldMeans(Object(keys, values), allowed);
  }

  /** A JSON document: no key twice, and nothing canonicalizing throws on. */
  ghost predicate IsDocument(v: Value) {
    WellFormed(v) && Serializable(v)
  }

  lemma {:induction false} PlainIsDocument(s: string, n: int)
    ensures IsDocument(Str(s)) && IsDocument(Num(n)) && IsDocument(Null)
  {
  }

  lemma {:induction false} ObjectIsDocument(keys: seq<string>, values: seq<Value>)
    requires |keys| == |values| && MarksGrow(keys)
    requires forall i :: 0 <= i < |values| ==> IsDocument(values[i])
    ensures IsDocument(Object(keys, values))
  {
    hide Mark;
    forall i, j | 0 <= i < j < |keys| ensures keys[i] != keys[j] {
      assert Mark(keys[i]) < Mark(keys[j]);
    }
  }

  // ----- Reading equal documents -----

  lemma {:induction false} LookupFinds(fields: seq<Field>, key: string) returns (i: nat)
    ensures Lookup(fields, key).Undefined? ==> DistinctKeys(fields) ==> !HasField(fields, key)
    ensures !Lookup(fields, key).Undefined? ==> i < |fields| && fields[i] == Field(key, Lookup(fields, key))
  {
    i := 0;
    if fields != [] && fields[0].key != key {
      var rest := LookupFinds(fields[1..], key);
      i := rest + 1;
      assert forall j :: 0 < j < |fields| ==> fields[j] == fields[1..][j - 1];
    }
  }

  /** Documents that are equal up to key order read alike. */
  lemma {:induction false} EquivReads(a: Value, b: Value, key: string)
    requires WellFormed(a) && WellFormed(b) && Equiv(a, b)
    ensures Equiv(Get(a, key), Get(b, key))
  {
    if a.Obj? {
      var i := LookupFinds(a.fields, key);
      var j := LookupFinds(b.fields, key);
      if !Get(a, key).Undefined? {
        assert HasField(a.fields, key);
      }
      if !Get(b, key).Undefined? {
        assert HasField(b.fields, key);
      }
    }
  }

  predicate IsPrimitive(v: Value) {
    v.Str? || v.Num?
  }

  lemma {:induction false} PlainIsEqual(a: Value, b: Value)
    requires IsPrimitive(a) && Equiv(a, b)
    ensures a == b
  {
  }

  lemma {:induction false} SamePrimitive(a: Value, b: Value, key: string)
    requires WellFormed(a) && WellFormed(b) && Equiv(a, b) && IsPrimitive(Get(a, key))
    ensures Get(a, key) == Get(b, key)
  {
    hide Get, WellFormed, Equiv;
    EquivReads(a, b, key);
    PlainIsEqual(Get(a, key), Get(b, key));
  }

  lemma {:induction false} LookupWellFormed(fields: seq<Field>, key: string)
    requires forall i :: 0 <= i < |fields| ==> WellFormed(fields[i].value)
    ensures WellFormed(Lookup(fields, key))
  {
    if fields != [] && fields[0].key != key {
      LookupWellFormed(fields[1..], key);
    }
  }

  lemma {:induction false} GetWellFormed(v: Value, key: string)
    requires WellFormed(v)
    ensures WellFormed(Get(v, key))
  {
    if v.Obj? {
      LookupWellFormed(v.fields, key);
    }
  }

  // ----- Appending fields -----

  function Append(v: Value, more: seq<Field>): Value
    requires v.Obj?
  {
    Obj(v.fields + more)
  }

  /** Fields appended to a document hide none of its own. */
  lemma {:induction false} AppendReads(v: Value, more: seq<Field>, key: string)
    requires v.Obj? && !Get(v, key).Undefined?
    ensures Get(Append(v, more), key) == Get(v, key)
    decreases |v.fields|
  {
    if v.fields[0].key == key {
      assert (v.fields + more)[0] == v.fields[0];
    } else {
      AppendReads(Obj(v.fields[1..]), more, key);
      assert (v.fields + more)[1..] == v.fields[1..] + more;
    }
  }
}
