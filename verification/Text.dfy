/** Bytes and text shared by every contract: decimal printing, the order of JavaScript strings,
    and the identifier patterns. */
module Text {

  datatype Option<+T> = None | Some(value: T)

  /** The first of a list of issues, which is what most callers read. */
  function First<T>(issues: seq<T>): Option<T> {
    if issues == [] then None else Some(issues[0])
  }

  function OrElse<T>(a: Option<T>, b: Option<T>): Option<T> {
    if a.Some? then a else b
  }

  function Unless<T>(ok: bool, code: T): Option<T> {
    if ok then None else Some(code)
  }

  type Byte = n: int | 0 <= n < 256

  type Bytes = seq<Byte>

  // ----- Decimal numbers -----

  predicate IsDigit(c: char) {
    '0' <= c <= '9'
  }

  function DigitChar(d: nat): (c: char)
    requires d < 10
    ensures IsDigit(c)
  {
    ('0' as int + d) as char
  }

  function DigitValue(c: char): (d: nat)
    requires IsDigit(c)
    ensures d < 10 && DigitChar(d) == c
  {
    c as int - '0' as int
  }

  predicate AllDigits(s: string) {
    forall i :: 0 <= i < |s| ==> IsDigit(s[i])
  }

  /** The template-literal and JSON form of a natural number. */
  function Decimal(n: nat): (s: string)
    ensures |s| > 0 && AllDigits(s)
  {
    if n < 10 then [DigitChar(n)] else Decimal(n / 10) + [DigitChar(n % 10)]
  }

  function DecimalValue(s: string): nat
    requires AllDigits(s)
  {
    if s == [] then 0
    else DecimalValue(s[..|s| - 1]) * 10 + DigitValue(s[|s| - 1])
  }

  lemma {:induction false} DecimalRoundTrip(n: nat)
    ensures DecimalValue(Decimal(n)) == n
  {
    if n >= 10 {
      DecimalRoundTrip(n / 10);
      assert Decimal(n)[..|Decimal(n)| - 1] == Decimal(n / 10);
    } else {
      assert [DigitChar(n)][..0] == [];
    }
  }

  /** Unique splitting: a text that ends in a decimal number after a non-digit is read back in
      one way only. */
  lemma {:induction false} TrailingDecimalUnique(a: string, m: nat, b: string, n: nat)
    requires a != [] && !IsDigit(a[|a| - 1])
    requires b != [] && !IsDigit(b[|b| - 1])
    requires a + Decimal(m) == b + Decimal(n)
    ensures a == b && m == n
  {
    var s := a + Decimal(m);
    assert forall i :: |a| <= i < |s| ==> s[i] == Decimal(m)[i - |a|];
    assert forall i :: |b| <= i < |s| ==> s[i] == Decimal(n)[i - |b|];
    assert s[|a| - 1] == a[|a| - 1] && s[|b| - 1] == b[|b| - 1];
    assert |a| == |b|;
    assert a == s[..|a|] == b;
    assert Decimal(m) == s[|a|..] == Decimal(n);
    DecimalRoundTrip(m);
    DecimalRoundTrip(n);
  }

  // ----- The order of JavaScript strings -----

  /** `<` on strings compares UTF-16 code units. On Unicode scalar values that is this rank:
      a supplementary character starts with a surrogate, so it sorts below U+E000. */
  function Utf16Rank(c: char): int {
    if 0xE000 <= c as int < 0x10000 then c as int + 0x110000 else c as int
  }

  /** The length of a string in UTF-16 code units. */
  function Utf16Length(s: string): nat {
    if s == "" then 0 else (if s[0] as int < 0x10000 then 1 else 2) + Utf16Length(s[1..])
  }

  predicate Before(a: string, b: string) {
    if b == [] then false
    else if a == [] then true
    else if a[0] == b[0] then Before(a[1..], b[1..])
    else Utf16Rank(a[0]) < Utf16Rank(b[0])
  }

  lemma {:induction false} BeforeIrreflexive(a: string)
    ensures !Before(a, a)
  {
    if a != [] {
      BeforeIrreflexive(a[1..]);
    }
  }

  lemma {:induction false} BeforeTotal(a: string, b: string)
    ensures Before(a, b) || a == b || Before(b, a)
  {
    if a != [] && b != [] {
      if a[0] == b[0] {
        BeforeTotal(a[1..], b[1..]);
        assert a == [a[0]] + a[1..] && b == [b[0]] + b[1..];
      } else {
        assert Utf16Rank(a[0]) != Utf16Rank(b[0]);
      }
    }
  }

  lemma {:induction false} BeforeTransitive(a: string, b: string, c: string)
    requires Before(a, b) && Before(b, c)
    ensures Before(a, c)
  {
    if a != [] && a[0] == b[0] && b[0] == c[0] {
      BeforeTransitive(a[1..], b[1..], c[1..]);
    }
  }

  /** An array-index key: the decimal printing of a number below 2^32 - 1. Objects list these
      keys first, by number. */
  predicate IsIndexKey(k: string) {
    && k != []
    && AllDigits(k)
    && DecimalValue(k) < 4294967295
    && Decimal(DecimalValue(k)) == k
  }

  /** The order in which a JavaScript object that was filled in `Before` order lists its keys. */
  predicate OwnKeyBefore(a: string, b: string) {
    if IsIndexKey(a) && IsIndexKey(b) then DecimalValue(a) < DecimalValue(b)
    else if IsIndexKey(a) || IsIndexKey(b) then IsIndexKey(a)
    else Before(a, b)
  }

  ghost predicate StrictOrder(less: (string, string) -> bool) {
    && (forall a :: !less(a, a))
    && (forall a, b :: less(a, b) || a == b || less(b, a))
    && (forall a, b, c :: less(a, b) && less(b, c) ==> less(a, c))
  }

  lemma {:induction false} BeforeIsStrictOrder()
    ensures StrictOrder(Before)
  {
    forall a ensures !Before(a, a) { BeforeIrreflexive(a); }
    forall a, b ensures Before(a, b) || a == b || Before(b, a) { BeforeTotal(a, b); }
    forall a, b, c | Before(a, b) && Before(b, c) ensures Before(a, c) { BeforeTransitive(a, b, c); }
  }

  lemma {:induction false} OwnKeyBeforeIsStrictOrder()
    ensures StrictOrder(OwnKeyBefore)
  {
    BeforeIsStrictOrder();
    forall a, b, c | OwnKeyBefore(a, b) && OwnKeyBefore(b, c) ensures OwnKeyBefore(a, c) {
      if !IsIndexKey(a) {
        BeforeTransitive(a, b, c);
      }
    }
    forall a, b ensures OwnKeyBefore(a, b) || a == b || OwnKeyBefore(b, a) {
      BeforeTotal(a, b);
    }
    forall a ensures !OwnKeyBefore(a, a) { BeforeIrreflexive(a); }
  }

  // ----- Identifier patterns -----

  /** The characters String.prototype.trim removes. */
  predicate IsJsSpace(c: char) {
    var u := c as int;
    || 9 <= u <= 13 || u == 0x20 || u == 0xA0 || u == 0x1680
    || 0x2000 <= u <= 0x200A || u == 0x2028 || u == 0x2029 || u == 0x202F
    || u == 0x205F || u == 0x3000 || u == 0xFEFF
  }

  predicate IsNonEmptyText(s: string) {
    exists i :: 0 <= i < |s| && !IsJsSpace(s[i])
  }

  /** The text without the spaces at both ends. */
  function Strip(space: char -> bool, s: string): string {
    if s != [] && space(s[0]) then Strip(space, s[1..])
    else if s != [] && space(s[|s| - 1]) then Strip(space, s[..|s| - 1])
    else s
  }

  lemma {:induction false} StripLeaves(space: char -> bool, s: string)
    ensures Strip(space, s) != "" <==> exists i :: 0 <= i < |s| && !space(s[i])
  {
    if s != [] && space(s[0]) {
      StripLeaves(space, s[1..]);
      assert forall i :: 0 < i < |s| ==> s[i] == s[1..][i - 1];
    } else if s != [] && space(s[|s| - 1]) {
      StripLeaves(space, s[..|s| - 1]);
    }
  }

  /** String.prototype.trim. */
  function Trim(s: string): string {
    Strip(IsJsSpace, s)
  }

  predicate IsLowerHex(c: char) {
    IsDigit(c) || 'a' <= c <= 'f'
  }

  predicate IsHex(c: char) {
    IsLowerHex(c) || 'A' <= c <= 'F'
  }

  predicate IsUuid(s: string) {
    && |s| == 36
    && forall i :: 0 <= i < 36 ==> if i in {8, 13, 18, 23} then s[i] == '-' else IsHex(s[i])
  }

  /** Five groups of hexadecimal digits, joined by hyphens. */
  ghost predicate JoinsGroups(s: string, a: string, b: string, c: string, d: string, e: string) {
    && |a| == 8 && |b| == 4 && |c| == 4 && |d| == 4 && |e| == 12
    && (forall x :: x in a + b + c + d + e ==> IsDigit(x) || 'a' <= x <= 'f' || 'A' <= x <= 'F')
    && s == a + "-" + b + "-" + c + "-" + d + "-" + e
  }

  lemma {:induction false} UuidIsFiveGroups(s: string)
    ensures IsUuid(s) <==> exists a, b, c, d, e :: JoinsGroups(s, a, b, c, d, e)
  {
    if IsUuid(s) {
      assert s[8] == s[13] == s[18] == s[23] == '-';
      assert JoinsGroups(s, s[..8], s[9..13], s[14..18], s[19..23], s[24..]);
    }
    if a, b, c, d, e :| JoinsGroups(s, a, b, c, d, e) {
      forall i | 0 <= i < 36 ensures if i in {8, 13, 18, 23} then s[i] == '-' else s[i] in a + b + c + d + e {
      }
    }
  }

  predicate IsSha256(s: string) {
    |s| == 64 && forall i :: 0 <= i < 64 ==> IsLowerHex(s[i])
  }
}
