/** JSON.stringify on canonical values, and a reader that takes the text back
    (RFC 8259 section 7 and ECMA-262 section 25.5.2 for quoting). */
module JsonText {
  import opened Text
  import opened PublishingCanonical

  // ----- Printing -----

  function HexDigit(d: nat): char
    requires d < 16
  {
    if d < 10 then DigitChar(d) else ('a' as int + d - 10) as char
  }

  /** QuoteJSONString on one character. Control characters below U+0010 and U+0020 share the
      \u00XX form with two hexadecimal digits. */
  function QuoteChar(c: char): string {
    if c == '"' then "\\\""
    else if c == '\\' then "\\\\"
    else if c as int == 8 then "\\b"
    else if c as int == 9 then "\\t"
    else if c as int == 10 then "\\n"
    else if c as int == 12 then "\\f"
    else if c as int == 13 then "\\r"
    else if (c as int) < 0x20 then "\\u00" + [HexDigit(c as int / 16), HexDigit(c as int % 16)]
    else [c]
  }

  function QuoteBody(s: string): string {
    if s == "" then "" else QuoteChar(s[0]) + QuoteBody(s[1..])
  }

  function Quote(s: string): string {
    "\"" + QuoteBody(s) + "\""
  }

  function Integer(n: int): string {
    if n < 0 then "-" + Decimal(-n) else Decimal(n)
  }

  /** Outside of objects JSON.stringify prints what has no JSON form as null. */
  function Print(v: Value): string {
    match v
    case Null => "null"
    case Undefined => "null"
    case Unsupported => "null"
    case Bool(b) => if b then "true" else "false"
    case Num(n) => Integer(n)
    case Str(s) => Quote(s)
    case Arr(items) => "[" + PrintItems(items) + "]"
    case Obj(fields) => "{" + PrintFields(fields) + "}"
  }

  function PrintItems(items: seq<Value>): string {
    if |items| == 0 then ""
    else if |items| == 1 then Print(items[0])
    else Print(items[0]) + "," + PrintItems(items[1..])
  }

  function PrintField(f: Field): string {
    Quote(f.key) + ":" + Print(f.value)
  }

  function PrintFields(fields: seq<Field>): string {
    if |fields| == 0 then ""
    else if |fields| == 1 then PrintField(fields[0])
    else PrintField(fields[0]) + "," + PrintFields(fields[1..])
  }

  // ----- Reading -----

  datatype Parsed<T> = Fail | Done(value: T, rest: string)

  function HexValue(c: char): Option<nat> {
    if IsDigit(c) then Some(DigitValue(c))
    else if 'a' <= c <= 'f' then Some(c as int - 'a' as int + 10)
    else None
  }

  /** The character an escape sequence stands for, and how much text it takes. */
  function Unescape(s: string): Parsed<char>
    ensures Unescape(s).Done? ==> |Unescape(s).rest| < |s|
  {
    if |s| < 2 || s[0] != '\\' then Fail
    else match s[1]
      case '"' => Done('"', s[2..])
      case '\\' => Done('\\', s[2..])
      case 'b' => Done(8 as char, s[2..])
      case 't' => Done(9 as char, s[2..])
      case 'n' => Done(10 as char, s[2..])
      case 'f' => Done(12 as char, s[2..])
      case 'r' => Done(13 as char, s[2..])
      case 'u' =>
        if |s| < 6 || s[2..4] != "00" then Fail
        else
          (match (HexValue(s[4]), HexValue(s[5]))
           case (Some(h), Some(l)) => if h < 16 && l < 16 then Done((h * 16 + l) as char, s[6..]) else Fail
           case _ => Fail)
      case _ => Fail
  }

  /** The text up to the closing quote. */
  function ParseBody(s: string): Parsed<string>
    ensures ParseBody(s).Done? ==> |ParseBody(s).rest| < |s|
  {
    if s == "" then Fail
    else if s[0] == '"' then Done("", s[1..])
    else if s[0] == '\\' then
      match Unescape(s)
      case Fail => Fail
      case Done(c, rest) =>
        (match ParseBody(rest)
         case Fail => Fail
         case Done(tail, rest') => Done([c] + tail, rest'))
    else if s[0] as int < 0x20 then Fail
    else
      match ParseBody(s[1..])
      case Fail => Fail
      case Done(tail, rest) => Done([s[0]] + tail, rest)
  }

  function ParseString(s: string): Parsed<string>
    ensures ParseString(s).Done? ==> |ParseString(s).rest| < |s|
  {
    if s == "" || s[0] != '"' then Fail else ParseBody(s[1..])
  }

  /** How many digits the text starts with. */
  function DigitSpan(s: string): (n: nat)
    ensures n <= |s| && AllDigits(s[..n])
    ensures n < |s| ==> !IsDigit(s[n])
  {
    if s == "" || !IsDigit(s[0]) then 0 else
      var n := DigitSpan(s[1..]);
      assert s[..n + 1] == [s[0]] + s[1..][..n];
      n + 1
  }

  function ParseNatural(s: string): Parsed<nat>
    ensures ParseNatural(s).Done? ==> |ParseNatural(s).rest| < |s|
  {
    var n := DigitSpan(s);
    if n == 0 then Fail else Done(DecimalValue(s[..n]), s[n..])
  }

  function ParseValue(s: string): Parsed<Value>
    ensures ParseValue(s).Done? ==> |ParseValue(s).rest| < |s|
    decreases |s|, 0
  {
    if s == "" then Fail
    else match s[0]
      case 'n' => if "null" <= s then Done(Null, s[4..]) else Fail
      case 't' => if "true" <= s then Done(Bool(true), s[4..]) else Fail
      case 'f' => if "false" <= s then Done(Bool(false), s[5..]) else Fail
      case '"' => (match ParseString(s) case Fail => Fail case Done(t, rest) => Done(Str(t), rest))
      case '[' =>
        if |s| > 1 && s[1] == ']' then Done(Arr([]), s[2..]) else
          (match ParseItems(s[1..]) case Fail => Fail case Done(items, rest) => Done(Arr(items), rest))
      case '{' =>
        if |s| > 1 && s[1] == '}' then Done(Obj([]), s[2..]) else
          (match ParseFields(s[1..]) case Fail => Fail case Done(fields, rest) => Done(Obj(fields), rest))
      case '-' => (match ParseNatural(s[1..]) case Fail => Fail case Done(n, rest) => Done(Num(0 - n), rest))
      case _ => (match ParseNatural(s) case Fail => Fail case Done(n, rest) => Done(Num(n), rest))
  }

  /** Values separated by commas, up to the closing bracket. */
  function ParseItems(s: string): Parsed<seq<Value>>
    ensures ParseItems(s).Done? ==> |ParseItems(s).rest| < |s|
    decreases |s|, 1
  {
    match ParseValue(s)
    case Fail => Fail
    case Done(v, rest) =>
      if rest == "" then Fail
      else if rest[0] == ']' then Done([v], rest[1..])
      else if rest[0] != ',' then Fail
      else
        match ParseItems(rest[1..])
        case Fail => Fail
        case Done(items, rest') => Done([v] + items, rest')
  }

  function ParseField(s: string): Parsed<Field>
    ensures ParseField(s).Done? ==> |ParseField(s).rest| < |s|
    decreases |s|, 1
  {
    match ParseString(s)
    case Fail => Fail
    case Done(k, rest) =>
      if rest == "" || rest[0] != ':' then Fail
      else
        match ParseValue(rest[1..])
        case Fail => Fail
        case Done(v, rest') => Done(Field(k, v), rest')
  }

  /** Fields separated by commas, up to the closing brace. */
  function ParseFields(s: string): Parsed<seq<Field>>
    ensures ParseFields(s).Done? ==> |ParseFields(s).rest| < |s|
    decreases |s|, 2
  {
    match ParseField(s)
    case Fail => Fail
    case Done(f, rest) =>
      if rest == "" then Fail
      else if rest[0] == '}' then Done([f], rest[1..])
      else if rest[0] != ',' then Fail
      else
        match ParseFields(rest[1..])
        case Fail => Fail
        case Done(fields, rest') => Done([f] + fields, rest')
  }

  function Parse(s: string): Option<Value> {
    match ParseValue(s)
    case Done(v, "") => Some(v)
    case _ => None
  }

  // ----- The round trip -----

  lemma {:induction false} HexDigitValue(d: nat)
    requires d < 16
    ensures HexValue(HexDigit(d)) == Some(d)
  {
  }

  lemma {:induction false} ParseQuotedChar(c: char, tail: string)
    ensures var r := ParseBody(QuoteChar(c) + tail);
            match ParseBody(tail)
            case Fail => r == Fail
            case Done(t, rest) => r == Done([c] + t, rest)
  {
    var s := QuoteChar(c) + tail;
    if c as int < 0x20 && c as int !in {8, 9, 10, 12, 13} {
      HexDigitValue(c as int / 16);
      HexDigitValue(c as int % 16);
      assert s[2..4] == "00" && s[6..] == tail;
      assert s[4] == HexDigit(c as int / 16) && s[5] == HexDigit(c as int % 16);
      assert Unescape(s) == Done(c, tail);
    } else if c == '"' || c == '\\' || c as int < 0x20 {
      assert s[2..] == tail;
      assert Unescape(s) == Done(c, tail);
    } else {
      assert s[1..] == tail;
    }
  }

  lemma {:induction false} ParseQuotedBody(t: string, rest: string)
    ensures ParseBody(QuoteBody(t) + "\"" + rest) == Done(t, rest)
  {
    hide QuoteChar, Unescape;
    if t == "" {
      assert QuoteBody(t) + "\"" + rest == "\"" + rest;
    } else {
      ParseQuotedBody(t[1..], rest);
      var tail := QuoteBody(t[1..]) + "\"" + rest;
      assert QuoteBody(t) + "\"" + rest == QuoteChar(t[0]) + tail;
      ParseQuotedChar(t[0], tail);
      assert [t[0]] + t[1..] == t;
    }
  }

  lemma {:induction false} ParseQuoted(t: string, rest: string)
    ensures ParseString(Quote(t) + rest) == Done(t, rest)
  {
    hide QuoteBody, QuoteChar, Unescape;
    ParseQuotedBody(t, rest);
    assert (Quote(t) + rest)[1..] == QuoteBody(t) + "\"" + rest;
  }

  ghost predicate NoDigitNext(rest: string) {
    rest == "" || !IsDigit(rest[0])
  }

  lemma {:induction false} ParseDecimal(n: nat, rest: string)
    requires NoDigitNext(rest)
    ensures ParseNatural(Decimal(n) + rest) == Done(n, rest)
  {
    var s := Decimal(n) + rest;
    var k := DigitSpan(s);
    assert k >= |Decimal(n)| by {
      assert forall i :: 0 <= i < |Decimal(n)| ==> s[i] == Decimal(n)[i];
    }
    assert forall i :: 0 <= i < k ==> s[..k][i] == s[i];
    assert rest != "" ==> !IsDigit(s[|Decimal(n)|]);
    assert k == |Decimal(n)|;
    assert s[..k] == Decimal(n) && s[k..] == rest;
    DecimalRoundTrip(n);
  }

  /** Values with a JSON form through and through: what canonicalizing returns. */
  ghost predicate Plain(v: Value) {
    match v
    case Undefined => false
    case Unsupported => false
    case Arr(items) => forall i :: 0 <= i < |items| ==> Plain(items[i])
    case Obj(fields) => forall i :: 0 <= i < |fields| ==> Plain(fields[i].value)
    case _ => true
  }

  lemma {:induction false} ParseKeyword(v: Value, rest: string)
    requires v.Null? || v.Bool?
    ensures ParseValue(Print(v) + rest) == Done(v, rest)
  {
    var word := Print(v);
    assert word <= word + rest && (word + rest)[|word|..] == rest && (word + rest)[0] == word[0];
  }

  lemma {:induction false} ParseNumberStep(s: string, n: nat, rest: string)
    requires ParseNatural(s) == Done(n, rest)
    ensures ParseValue(s) == Done(Num(n), rest)
    ensures ParseValue("-" + s) == Done(Num(0 - n), rest)
  {
    assert IsDigit(s[0]) by { assert s[..DigitSpan(s)][0] == s[0]; }
    assert ("-" + s)[1..] == s;
  }

  lemma {:induction false} ParseNumber(n: int, rest: string)
    requires NoDigitNext(rest)
    ensures ParseValue(Integer(n) + rest) == Done(Num(n), rest)
  {
    var m := if n < 0 then -n else n;
    ParseDecimal(m, rest);
    ParseNumberStep(Decimal(m) + rest, m, rest);
    Reassociate("-", Decimal(m), rest, "");
  }

  lemma {:induction false} ParseArrayStep(body: string, items: seq<Value>, rest: string)
    requires ParseItems(body) == Done(items, rest) && body != "" && body[0] != ']'
    ensures ParseValue("[" + body) == Done(Arr(items), rest)
  {
    assert ("[" + body)[1..] == body && ("[" + body)[1] == body[0];
  }

  lemma {:induction false} ParseObjectStep(body: string, fields: seq<Field>, rest: string)
    requires ParseFields(body) == Done(fields, rest) && body != "" && body[0] == '"'
    ensures ParseValue("{" + body) == Done(Obj(fields), rest)
  {
    assert ("{" + body)[1..] == body && ("{" + body)[1] == body[0];
  }

  lemma {:induction false} ParseEmpty(rest: string)
    ensures ParseValue("[]" + rest) == Done(Arr([]), rest)
    ensures ParseValue("{}" + rest) == Done(Obj([]), rest)
  {
    assert ("[]" + rest)[2..] == rest && ("{}" + rest)[2..] == rest;
  }

  lemma {:induction false} ParsePrintValue(v: Value, rest: string)
    requires Plain(v) && NoDigitNext(rest)
    ensures ParseValue(Print(v) + rest) == Done(v, rest)
    decreases v, 0
  {
    match v
    case Num(n) =>
      ParseNumber(n, rest);
    case Str(t) =>
      ParseQuoted(t, rest);
    case Arr(items) =>
      if items == [] {
        ParseEmpty(rest);
      } else {
        ParsePrintItems(items, rest);
        PrintStartsNoBracket(items);
        ParseArrayStep(PrintItems(items) + "]" + rest, items, rest);
        Reassociate("[", PrintItems(items), "]", rest);
      }
    case Obj(fields) =>
      if fields == [] {
        ParseEmpty(rest);
      } else {
        ParsePrintFields(fields, rest);
        assert PrintFields(fields)[0] == '"';
        ParseObjectStep(PrintFields(fields) + "}" + rest, fields, rest);
        Reassociate("{", PrintFields(fields), "}", rest);
      }
    case _ =>
      ParseKeyword(v, rest);
  }

  lemma {:induction false} PrintStartsNoBracket(items: seq<Value>)
    requires items != []
    ensures PrintItems(items) != "" && PrintItems(items)[0] != ']'
  {
    var v := items[0];
    assert Print(v) != "" && Print(v)[0] != ']' by {
      if v.Num? { assert v.n >= 0 ==> Print(v) == Decimal(v.n); }
    }
  }

  lemma {:induction false} Reassociate(a: string, b: string, c: string, d: string)
    ensures a + b + c + d == a + (b + c + d)
    ensures a + b + c == a + (b + c)
  {
  }

  lemma {:induction false} ParseItemsStep(s: string, v: Value, tail: string, items: seq<Value>, rest: string)
    ensures ParseValue(s) == Done(v, "]" + tail) ==> ParseItems(s) == Done([v], tail)
    ensures ParseValue(s) == Done(v, "," + tail) && ParseItems(tail) == Done(items, rest) ==>
              ParseItems(s) == Done([v] + items, rest)
  {
    assert ("]" + tail)[1..] == tail && ("," + tail)[1..] == tail;
  }

  lemma {:induction false} ParseFieldsStep(s: string, f: Field, tail: string, fields: seq<Field>, rest: string)
    ensures ParseField(s) == Done(f, "}" + tail) ==> ParseFields(s) == Done([f], tail)
    ensures ParseField(s) == Done(f, "," + tail) && ParseFields(tail) == Done(fields, rest) ==>
              ParseFields(s) == Done([f] + fields, rest)
  {
    assert ("}" + tail)[1..] == tail && ("," + tail)[1..] == tail;
  }

  lemma {:induction false} ParseFieldStep(s: string, k: string, tail: string, v: Value, rest: string)
    requires ParseString(s) == Done(k, ":" + tail) && ParseValue(tail) == Done(v, rest)
    ensures ParseField(s) == Done(Field(k, v), rest)
  {
    assert (":" + tail)[1..] == tail;
  }

  lemma {:induction false} ParsePrintItems(items: seq<Value>, rest: string)
    requires items != [] && forall i :: 0 <= i < |items| ==> Plain(items[i])
    ensures ParseItems(PrintItems(items) + "]" + rest) == Done(items, rest)
    decreases items, 1
  {
    hide Plain, Print, ParseItems, ParseValue;
    var head := Print(items[0]);
    if |items| == 1 {
      ParsePrintValue(items[0], "]" + rest);
      Reassociate(head, "]", rest, "");
      ParseItemsStep(head + ("]" + rest), items[0], rest, [], rest);
      assert items == [items[0]];
    } else {
      var tail := PrintItems(items[1..]) + "]" + rest;
      ParsePrintItems(items[1..], rest);
      ParsePrintValue(items[0], "," + tail);
      ParseItemsStep(head + ("," + tail), items[0], tail, items[1..], rest);
      Reassociate(head + ",", PrintItems(items[1..]), "]", rest);
      Reassociate(head, ",", tail, "");
      assert items == [items[0]] + items[1..];
    }
  }

  lemma {:induction false} ParsePrintField(f: Field, rest: string)
    requires Plain(f.value) && NoDigitNext(rest)
    ensures ParseField(PrintField(f) + rest) == Done(f, rest)
    decreases f, 1
  {
    var tail := Print(f.value) + rest;
    ParseQuoted(f.key, ":" + tail);
    ParsePrintValue(f.value, rest);
    ParseFieldStep(Quote(f.key) + (":" + tail), f.key, tail, f.value, rest);
    Reassociate(Quote(f.key), ":", Print(f.value), rest);
    Reassociate(":", Print(f.value), rest, "");
  }

  lemma {:induction false} ParsePrintFields(fields: seq<Field>, rest: string)
    requires fields != [] && forall i :: 0 <= i < |fields| ==> Plain(fields[i].value)
    ensures ParseFields(PrintFields(fields) + "}" + rest) == Done(fields, rest)
    decreases fields, 1
  {
    hide Plain, PrintField, ParseFields, ParseField;
    var head := PrintField(fields[0]);
    if |fields| == 1 {
      ParsePrintField(fields[0], "}" + rest);
      Reassociate(head, "}", rest, "");
      ParseFieldsStep(head + ("}" + rest), fields[0], rest, [], rest);
      assert fields == [fields[0]];
    } else {
      var tail := PrintFields(fields[1..]) + "}" + rest;
      ParsePrintFields(fields[1..], rest);
      ParsePrintField(fields[0], "," + tail);
      ParseFieldsStep(head + ("," + tail), fields[0], tail, fields[1..], rest);
      Reassociate(head + ",", PrintFields(fields[1..]), "}", rest);
      Reassociate(head, ",", tail, "");
      assert fields == [fields[0]] + fields[1..];
    }
  }

  /** A reader recovers every JSON value from its printing. */
  lemma {:induction false} ParsePrint(v: Value)
    requires Plain(v)
    ensures Parse(Print(v)) == Some(v)
  {
    ParsePrintValue(v, "");
    assert Print(v) + "" == Print(v);
  }

  // ----- The only shortest text -----

  /** Of all texts with this beginning that leave this rest, p + rest is the only shortest. */
  ghost predicate Shortest(s: string, p: string, rest: string) {
    |p| + |rest| <= |s| && (|p| + |rest| == |s| ==> s == p + rest)
  }

  lemma {:induction false} ShortestAfter(s: string, a: string, n: nat, p: string, rest: string)
    requires |a| <= n <= |s| && (|a| == n ==> s[..n] == a)
    requires Shortest(s[n..], p, rest)
    ensures Shortest(s, a + p, rest)
  {
    if |a + p| + |rest| == |s| {
      assert s == s[..n] + s[n..];
      assert s == a + (p + rest);
      assert a + (p + rest) == a + p + rest;
    }
  }

  lemma {:induction false} ShortestThen(s: string, p: string, mid: string, q: string, rest: string)
    requires Shortest(s, p, mid) && Shortest(mid, q, rest)
    ensures Shortest(s, p + q, rest)
  {
    if |p + q| + |rest| == |s| {
      assert p + q + rest == p + (q + rest);
    }
  }

  lemma {:induction false} HexOfValue(c: char)
    requires HexValue(c).Some?
    ensures HexValue(c).value < 16 && HexDigit(HexValue(c).value) == c
  {
  }

  lemma {:induction false} UnescapeShortest(s: string)
    requires Unescape(s).Done?
    ensures Shortest(s, QuoteChar(Unescape(s).value), Unescape(s).rest)
  {
    var c, rest := Unescape(s).value, Unescape(s).rest;
    if s[1] == 'u' {
      HexOfValue(s[4]);
      HexOfValue(s[5]);
      var h, l := HexValue(s[4]).value, HexValue(s[5]).value;
      assert c as int == h * 16 + l && c as int / 16 == h && c as int % 16 == l;
      assert s == ['\\', 'u', s[2], s[3], s[4], s[5]] + rest;
      assert s[2] == s[2..4][0] && s[3] == s[2..4][1];
    } else {
      assert s == ['\\', s[1]] + rest;
    }
  }

  lemma {:induction false} BodyShortest(s: string)
    requires ParseBody(s).Done?
    ensures Shortest(s, QuoteBody(ParseBody(s).value) + "\"", ParseBody(s).rest)
    decreases |s|
  {
    hide QuoteChar, Unescape;
    var t, rest := ParseBody(s).value, ParseBody(s).rest;
    if s[0] == '"' {
      assert s == "\"" + s[1..] && QuoteBody("") + "\"" == "\"";
    } else {
      var tail := if s[0] == '\\' then Unescape(s).rest else s[1..];
      BodyShortest(tail);
      var body := QuoteBody(ParseBody(tail).value) + "\"";
      if s[0] == '\\' {
        UnescapeShortest(s);
      } else {
        LiteralShortest(s);
      }
      ShortestThen(s, QuoteChar(t[0]), tail, body, rest);
      assert t[1..] == ParseBody(tail).value;
      assert QuoteChar(t[0]) + body == QuoteBody(t) + "\"";
    }
  }

  lemma {:induction false} LiteralShortest(s: string)
    requires s != "" && s[0] != '"' && s[0] != '\\' && s[0] as int >= 0x20
    ensures Shortest(s, QuoteChar(s[0]), s[1..])
  {
    assert s == [s[0]] + s[1..];
  }

  lemma {:induction false} StringShortest(s: string)
    requires ParseString(s).Done?
    ensures Shortest(s, Quote(ParseString(s).value), ParseString(s).rest)
  {
    BodyShortest(s[1..]);
    var body := QuoteBody(ParseString(s).value) + "\"";
    ShortestAfter(s, "\"", 1, body, ParseString(s).rest);
    assert "\"" + body == Quote(ParseString(s).value);
  }

  lemma {:induction false} DecimalShortest(d: string)
    requires d != "" && AllDigits(d)
    ensures |Decimal(DecimalValue(d))| <= |d|
    ensures |Decimal(DecimalValue(d))| == |d| ==> Decimal(DecimalValue(d)) == d
  {
    var n := |d| - 1;
    var init, last := d[..n], DigitValue(d[n]);
    assert d == init + [d[n]] && DigitChar(last) == d[n];
    if n == 0 {
      assert init == "";
    } else {
      DecimalShortest(init);
      var v := DecimalValue(init);
      assert DecimalValue(d) == v * 10 + last;
      if v > 0 {
        assert (v * 10 + last) / 10 == v && (v * 10 + last) % 10 == last;
      }
    }
  }

  lemma {:induction false} NaturalShortest(s: string)
    requires ParseNatural(s).Done?
    ensures Shortest(s, Decimal(ParseNatural(s).value), ParseNatural(s).rest)
  {
    var n := DigitSpan(s);
    DecimalShortest(s[..n]);
    assert s == s[..n] + s[n..];
  }

  lemma {:induction false} NumberShortest(s: string)
    requires ParseNatural(s).Done?
    ensures Shortest(s, Integer(ParseNatural(s).value), ParseNatural(s).rest)
    ensures Shortest("-" + s, Integer(0 - ParseNatural(s).value), ParseNatural(s).rest)
  {
    NaturalShortest(s);
    var n, rest := ParseNatural(s).value, ParseNatural(s).rest;
    assert ("-" + s)[1..] == s && ("-" + s)[..1] == "-";
    ShortestAfter("-" + s, "-", 1, Decimal(n), rest);
    if n == 0 {
      assert |Decimal(0)| + |rest| < |"-" + s|;
    }
  }

  lemma {:induction false} KeywordShortest(s: string, word: string)
    requires word <= s
    ensures Shortest(s, word, s[|word|..])
  {
    assert s == word + s[|word|..];
  }

  lemma {:induction false} ArrayShortest(s: string)
    requires s != "" && s[0] == '[' && ParseValue(s).Done?
    ensures Plain(ParseValue(s).value) && Shortest(s, Print(ParseValue(s).value), ParseValue(s).rest)
    decreases |s|, 0
  {
    hide Shortest;
    var v, rest := ParseValue(s).value, ParseValue(s).rest;
    if |s| > 1 && s[1] == ']' {
      assert "[]" <= s && Print(v) == "[]";
      KeywordShortest(s, "[]");
    } else {
      ItemsShortest(s[1..]);
      ShortestAfter(s, "[", 1, PrintItems(v.items) + "]", rest);
      Reassociate("[", PrintItems(v.items), "]", "");
    }
  }

  lemma {:induction false} ObjectShortest(s: string)
    requires s != "" && s[0] == '{' && ParseValue(s).Done?
    ensures Plain(ParseValue(s).value) && Shortest(s, Print(ParseValue(s).value), ParseValue(s).rest)
    decreases |s|, 0
  {
    hide Shortest;
    var v, rest := ParseValue(s).value, ParseValue(s).rest;
    if |s| > 1 && s[1] == '}' {
      assert "{}" <= s && Print(v) == "{}";
      KeywordShortest(s, "{}");
    } else {
      FieldsShortest(s[1..]);
      ShortestAfter(s, "{", 1, PrintFields(v.fields) + "}", rest);
      Reassociate("{", PrintFields(v.fields), "}", "");
    }
  }

  lemma {:induction false} ValueShortest(s: string)
    requires ParseValue(s).Done?
    ensures Plain(ParseValue(s).value) && Shortest(s, Print(ParseValue(s).value), ParseValue(s).rest)
    decreases |s|, 1
  {
    hide Shortest;
    match s[0]
    case 'n' => KeywordShortest(s, "null");
    case 't' => KeywordShortest(s, "true");
    case 'f' => KeywordShortest(s, "false");
    case '"' => StringShortest(s);
    case '[' => ArrayShortest(s);
    case '{' => ObjectShortest(s);
    case '-' =>
      NumberShortest(s[1..]);
      assert s == "-" + s[1..];
    case _ => NumberShortest(s);
  }

  lemma {:induction false} ItemsShortest(s: string)
    requires ParseItems(s).Done?
    ensures ParseItems(s).value != [] && forall i :: 0 <= i < |ParseItems(s).value| ==> Plain(ParseItems(s).value[i])
    ensures Shortest(s, PrintItems(ParseItems(s).value) + "]", ParseItems(s).rest)
    decreases |s|, 2
  {
    hide Shortest, Print, ParseValue, Plain;
    var items, rest := ParseItems(s).value, ParseItems(s).rest;
    ValueShortest(s);
    var head, mid := Print(ParseValue(s).value), ParseValue(s).rest;
    if mid[0] == ']' {
      KeywordShortest(mid, "]");
      ShortestThen(s, head, mid, "]", rest);
    } else {
      ItemsShortest(mid[1..]);
      var tail := PrintItems(items[1..]) + "]";
      KeywordShortest(mid, ",");
      ShortestThen(mid, ",", mid[1..], tail, rest);
      ShortestThen(s, head, mid, "," + tail, rest);
      assert items[1..] == ParseItems(mid[1..]).value;
      assert head + ("," + tail) == PrintItems(items) + "]";
    }
  }

  lemma {:induction false} FieldShortest(s: string)
    requires ParseField(s).Done?
    ensures Plain(ParseField(s).value.value) && Shortest(s, PrintField(ParseField(s).value), ParseField(s).rest)
    decreases |s|, 2
  {
    hide Shortest, Print, ParseValue, Plain, Quote, ParseString;
    StringShortest(s);
    var key, mid := Quote(ParseString(s).value), ParseString(s).rest;
    ValueShortest(mid[1..]);
    var value, rest := Print(ParseValue(mid[1..]).value), ParseField(s).rest;
    KeywordShortest(mid, ":");
    ShortestThen(mid, ":", mid[1..], value, rest);
    ShortestThen(s, key, mid, ":" + value, rest);
    assert key + (":" + value) == PrintField(ParseField(s).value);
  }

  lemma {:induction false} FieldsShortest(s: string)
    requires ParseFields(s).Done?
    ensures ParseFields(s).value != []
    ensures forall i :: 0 <= i < |ParseFields(s).value| ==> Plain(ParseFields(s).value[i].value)
    ensures Shortest(s, PrintFields(ParseFields(s).value) + "}", ParseFields(s).rest)
    decreases |s|, 3
  {
    hide Shortest, PrintField, ParseField, Plain;
    var fields, rest := ParseFields(s).value, ParseFields(s).rest;
    FieldShortest(s);
    var head, mid := PrintField(ParseField(s).value), ParseField(s).rest;
    if mid[0] == '}' {
      KeywordShortest(mid, "}");
      ShortestThen(s, head, mid, "}", rest);
    } else {
      FieldsShortest(mid[1..]);
      var tail := PrintFields(fields[1..]) + "}";
      KeywordShortest(mid, ",");
      ShortestThen(mid, ",", mid[1..], tail, rest);
      ShortestThen(s, head, mid, "," + tail, rest);
      assert fields[1..] == ParseFields(mid[1..]).value;
      assert head + ("," + tail) == PrintFields(fields) + "}";
    }
  }

  /** The printing is the only shortest text that is read back as the value: nothing is escaped that need not
      be, every escape has its short form, numbers have no leading zeros, and there is no white space. */
  lemma {:induction false} PrintIsOnlyShortest(t: string)
    requires Parse(t).Some?
    ensures Plain(Parse(t).value) && |Print(Parse(t).value)| <= |t|
    ensures |Print(Parse(t).value)| == |t| ==> t == Print(Parse(t).value)
  {
    ValueShortest(t);
    assert Print(Parse(t).value) + "" == Print(Parse(t).value);
  }
}
