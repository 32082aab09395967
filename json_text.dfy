/**
 * JSON text: `JSON.stringify` and `JSON.parse` over the integer-valued
 * JavaScript values of module Js, and the round trip between them.
 *
 * The storefront keeps JSON text in three places: the Cart and Addresses cells
 * of the Users tab, the browser's storage, and the request and reply bodies.
 */
module JsonText {
  import opened Js

  // ============================================================ JSON.stringify

  function HexDigit(d: int): (c: char)
    requires 0 <= d < 16
  {
    if d < 10 then DigitChar(d) else ('a' as int + d - 10) as char
  }

  /** How JSON.stringify writes one character of a string. */
  function EscapeChar(c: char): (r: string)
    ensures r != [] && r[0] != '"'
  {
    var k := c as int;
    if c == '"' then ['\\', '"']
    else if c == '\\' then ['\\', '\\']
    else if k == 0x08 then ['\\', 'b']
    else if k == 0x09 then ['\\', 't']
    else if k == 0x0A then ['\\', 'n']
    else if k == 0x0C then ['\\', 'f']
    else if k == 0x0D then ['\\', 'r']
    else if k < 0x20 then ['\\', 'u', '0', '0', HexDigit(k / 16), HexDigit(k % 16)]
    else [c]
  }

  function EscapeAll(s: string): string
  {
    if s == [] then [] else EscapeChar(s[0]) + EscapeAll(s[1..])
  }

  function Quote(s: string): string
  {
    ['"'] + EscapeAll(s) + ['"']
  }

  /** The characters a JSON value can start with. */
  predicate StartsValue(c: char)
  {
    c == 'n' || c == 't' || c == 'f' || c == '"' || c == '[' || c == '{' || c == '-' || IsDigit(c)
  }

  /** JSON text of a value in an array slot: undefined and NaN become null,
      object fields holding undefined are skipped. */
  function Encode(v: Json): (r: string)
    ensures r != [] && StartsValue(r[0])
  {
    match v
    case Undefined => "null"
    case Null => "null"
    case NaN => "null"
    case Bool(b) => if b then "true" else "false"
    case Num(n) => IntToString(n)
    case Str(s) => Quote(s)
    case Arr(items) => "[" + EncodeItems(items) + "]"
    case Obj(fs) => "{" + EncodeMembers(fs) + "}"
  }

  function EncodeItems(items: seq<Json>): string
  {
    if items == [] then ""
    else if |items| == 1 then Encode(items[0])
    else Encode(items[0]) + "," + EncodeItems(items[1..])
  }

  function EncodeMembers(fs: seq<Field>): string
  {
    if fs == [] then ""
    else if fs[0].value.Undefined? then EncodeMembers(fs[1..])
    else
      var rest := EncodeMembers(fs[1..]);
      Quote(fs[0].key) + ":" + Encode(fs[0].value) + (if rest == "" then "" else "," + rest)
  }

  /** `JSON.stringify(v)`; None is the undefined it returns for undefined. */
  function Stringify(v: Json): Option<string>
  {
    if v.Undefined? then None else Some(Encode(v))
  }

  /** What a value looks like after a trip through JSON text. */
  function Normal(v: Json): Json
  {
    match v
    case Undefined => Null
    case NaN => Null
    case Arr(items) => Arr(NormalItems(items))
    case Obj(fs) => Obj(NormalMembers(fs))
    case _ => v
  }

  function NormalItems(items: seq<Json>): (r: seq<Json>)
    ensures |r| == |items|
  {
    if items == [] then [] else [Normal(items[0])] + NormalItems(items[1..])
  }

  function NormalMembers(fs: seq<Field>): seq<Field>
  {
    if fs == [] then []
    else if fs[0].value.Undefined? then NormalMembers(fs[1..])
    else [Field(fs[0].key, Normal(fs[0].value))] + NormalMembers(fs[1..])
  }

  // ================================================================ JSON.parse

  predicate IsWs(c: char)
  {
    c == ' ' || c == '\t' || c == '\n' || c == '\r'
  }

  function SkipWs(s: string): (r: string)
    ensures |r| <= |s|
    ensures r == [] || !IsWs(r[0])
  {
    if s != [] && IsWs(s[0]) then SkipWs(s[1..]) else s
  }

  function HexValue(c: char): (r: Option<int>)
    ensures r.Some? ==> 0 <= r.value < 16
  {
    if '0' <= c <= '9' then Some(c as int - '0' as int)
    else if 'a' <= c <= 'f' then Some(c as int - 'a' as int + 10)
    else if 'A' <= c <= 'F' then Some(c as int - 'A' as int + 10)
    else None
  }

  /** The character a one-letter escape stands for. */
  function SimpleEscape(c: char): Option<char>
  {
    if c == '"' then Some('"')
    else if c == '\\' then Some('\\')
    else if c == '/' then Some('/')
    else if c == 'b' then Some(8 as char)
    else if c == 'f' then Some(12 as char)
    else if c == 'n' then Some(10 as char)
    else if c == 'r' then Some(13 as char)
    else if c == 't' then Some(9 as char)
    else None
  }

  /** The code unit named by the four hex digits of a `\u` escape. */
  function HexQuad(h: string): (r: Option<int>)
    requires |h| == 4
    ensures r.Some? ==> 0 <= r.value < 0x10000
  {
    var a := HexValue(h[0]);
    var b := HexValue(h[1]);
    var c := HexValue(h[2]);
    var d := HexValue(h[3]);
    if a.Some? && b.Some? && c.Some? && d.Some? then
      var high := a.value * 16 + b.value;
      var low := c.value * 16 + d.value;
      Some(high * 256 + low)
    else None
  }

  /** The character after a backslash in a JSON string, and what follows it.
      A high-surrogate `\u` escape followed by a low-surrogate one names one
      character beyond the 16-bit range; a lone half of a pair is refused. */
  function ParseEscape(u: string): (r: Option<(char, string)>)
    ensures r.Some? ==> |r.value.1| < |u|
  {
    if u == [] then None
    else if SimpleEscape(u[0]).Some? then Some((SimpleEscape(u[0]).value, u[1..]))
    else if u[0] == 'u' && |u| >= 5 then
      match HexQuad(u[1..5])
      case None => None
      case Some(k) =>
        if 0xD800 <= k < 0xDC00 then LowHalf(k, u[5..])
        else if 0xDC00 <= k < 0xE000 then None
        else Some((k as char, u[5..]))
    else None
  }

  /** The low half `\uDC00`-`\uDFFF` that must follow the high half `high`,
      and the character the pair names. */
  function LowHalf(high: int, v: string): (r: Option<(char, string)>)
    requires 0xD800 <= high < 0xDC00
    ensures r.Some? ==> |r.value.1| + 6 == |v|
    ensures r.Some? ==> 0x10000 <= r.value.0 as int <= 0x10FFFF
  {
    if |v| >= 6 && v[0] == '\\' && v[1] == 'u' then
      match HexQuad(v[2..6])
      case Some(low) =>
        if 0xDC00 <= low < 0xE000 then
          Some(((0x10000 + (high - 0xD800) * 0x400 + (low - 0xDC00)) as char, v[6..]))
        else None
      case None => None
    else None
  }

  /** `"\ud83d\ude00"` reads as the one character U+1F600. */
  lemma SurrogatePairEscape()
    ensures ParseEscape("ud83d\\ude00") == Some(('\U{1F600}', ""))
  {
    assert HexQuad("d83d") == Some(0xD83D);
    assert HexQuad("de00") == Some(0xDE00);
  }

  function Prepend(c: char, r: Option<(string, string)>): Option<(string, string)>
  {
    match r
    case None => None
    case Some((s, rest)) => Some(([c] + s, rest))
  }

  /** The body of a JSON string up to its closing quote, and what follows. */
  function ParseString(t: string): (r: Option<(string, string)>)
    ensures r.Some? ==> |r.value.1| < |t|
    decreases |t|
  {
    if t == [] then None
    else if t[0] == '"' then Some(([], t[1..]))
    else if t[0] == '\\' then
      match ParseEscape(t[1..])
      case None => None
      case Some((c, u)) => Prepend(c, ParseString(u))
    else if t[0] as int < 0x20 then None
    else Prepend(t[0], ParseString(t[1..]))
  }

  function Literal(t: string, word: string, v: Json): (r: Option<(Json, string)>)
    requires word != []
    ensures r.Some? ==> |r.value.1| < |t|
  {
    if |t| >= |word| && t[..|word|] == word then Some((v, t[|word|..])) else None
  }

  /** Decimal digits without a superfluous leading zero, not followed by a
      fraction or an exponent. */
  function ParseDigits(u: string): (r: Option<(nat, string)>)
    ensures r.Some? ==> |r.value.1| < |u|
  {
    var ds := DigitPrefix(u);
    var rest := u[|ds|..];
    if ds == [] || (|ds| > 1 && ds[0] == '0') then None
    else if rest != [] && (rest[0] == '.' || rest[0] == 'e' || rest[0] == 'E') then None
    else Some((DigitsValue(ds), rest))
  }

  /** An integer literal; a fraction or an exponent is refused. */
  function ParseNumber(t: string): (r: Option<(Json, string)>)
    ensures r.Some? ==> |r.value.1| < |t|
  {
    var neg := t != [] && t[0] == '-';
    match ParseDigits(if neg then t[1..] else t)
    case None => None
    case Some((m, rest)) =>
      var k: int := m;
      Some((Num(if neg then -k else k), rest))
  }

  function ParseValue(s: string): (r: Option<(Json, string)>)
    ensures r.Some? ==> |r.value.1| < |s|
    decreases |s|, 0
  {
    var t := SkipWs(s);
    if t == [] then None
    else if t[0] == 'n' then Literal(t, "null", Null)
    else if t[0] == 't' then Literal(t, "true", Bool(true))
    else if t[0] == 'f' then Literal(t, "false", Bool(false))
    else if t[0] == '"' then
      match ParseString(t[1..])
      case None => None
      case Some((str, u)) => Some((Str(str), u))
    else if t[0] == '[' then ParseArray(t[1..])
    else if t[0] == '{' then ParseObject(t[1..])
    else if t[0] == '-' || IsDigit(t[0]) then ParseNumber(t)
    else None
  }

  /** An array after its `[`. */
  function ParseArray(s: string): (r: Option<(Json, string)>)
    ensures r.Some? ==> |r.value.1| < |s|
    decreases |s|, 2
  {
    var t := SkipWs(s);
    if t != [] && t[0] == ']' then Some((Arr([]), t[1..]))
    else ParseElements(s, [])
  }

  function ParseElements(s: string, acc: seq<Json>): (r: Option<(Json, string)>)
    ensures r.Some? ==> |r.value.1| < |s|
    decreases |s|, 1
  {
    match ParseValue(s)
    case None => None
    case Some((v, u)) =>
      var w := SkipWs(u);
      if w == [] then None
      else if w[0] == ',' then ParseElements(w[1..], acc + [v])
      else if w[0] == ']' then Some((Arr(acc + [v]), w[1..]))
      else None
  }

  /** An object after its `{`. */
  function ParseObject(s: string): (r: Option<(Json, string)>)
    ensures r.Some? ==> |r.value.1| < |s|
    decreases |s|, 2
  {
    var t := SkipWs(s);
    if t != [] && t[0] == '}' then Some((Obj([]), t[1..]))
    else ParseMembers(s, [])
  }

  function ParseMembers(s: string, acc: seq<Field>): (r: Option<(Json, string)>)
    ensures r.Some? ==> |r.value.1| < |s|
    decreases |s|, 1
  {
    var t := SkipWs(s);
    if t == [] || t[0] != '"' then None
    else
      match ParseString(t[1..])
      case None => None
      case Some((key, u)) =>
        var w := SkipWs(u);
        if w == [] || w[0] != ':' then None
        else
          match ParseValue(w[1..])
          case None => None
          case Some((v, x)) =>
            var y := SkipWs(x);
            if y == [] then None
            else if y[0] == ',' then ParseMembers(y[1..], acc + [Field(key, v)])
            else if y[0] == '}' then Some((Obj(acc + [Field(key, v)]), y[1..]))
            else None
  }

  /** `JSON.parse(s)`; None is the SyntaxError it throws. */
  function Parse(s: string): Option<Json>
  {
    match ParseValue(s)
    case None => None
    case Some((v, rest)) => if SkipWs(rest) == [] then Some(v) else None
  }

  // ================================================================ round trip

  lemma HexRoundTrip(d: int)
    requires 0 <= d < 16
    ensures HexValue(HexDigit(d)) == Some(d)
  {
  }

  lemma {:induction false} EscapeCharRoundTrip(c: char, rest: string)
    ensures ParseString(EscapeChar(c) + rest) == Prepend(c, ParseString(rest))
  {
    var k := c as int;
    var e := EscapeChar(c);
    var t := e + rest;
    if c == '"' || c == '\\' || k == 0x08 || k == 0x09 || k == 0x0A || k == 0x0C || k == 0x0D {
      assert t[0] == '\\' && t[1..] == [e[1]] + rest;
      assert ParseEscape(t[1..]) == Some((c, rest));
    } else if k < 0x20 {
      HexRoundTrip(k / 16);
      HexRoundTrip(k % 16);
      assert t[0] == '\\';
      var u := t[1..];
      assert u[0] == 'u' && u[1] == '0' && u[2] == '0' && u[3] == HexDigit(k / 16) && u[4] == HexDigit(k % 16);
      assert u[5..] == rest;
      assert ParseEscape(u) == Some((c, rest));
    } else {
      assert t[0] == c && t[1..] == rest;
    }
  }

  lemma {:induction false} QuoteRoundTrip(s: string, rest: string)
    ensures ParseString(EscapeAll(s) + ['"'] + rest) == Some((s, rest))
  {
    if s == [] {
      assert EscapeAll(s) + ['"'] + rest == ['"'] + rest;
    } else {
      var tail := EscapeAll(s[1..]) + ['"'] + rest;
      assert EscapeAll(s) + ['"'] + rest == EscapeChar(s[0]) + tail;
      EscapeCharRoundTrip(s[0], tail);
      QuoteRoundTrip(s[1..], rest);
      assert [s[0]] + s[1..] == s;
    }
  }

  /** The text after a value inside an array or object, or at the end. */
  predicate Follows(rest: string)
  {
    rest == [] || rest[0] == ',' || rest[0] == ']' || rest[0] == '}' || rest[0] == ':'
  }

  lemma LeadingDigit(n: nat)
    ensures NatToString(n)[0] == '0' ==> n == 0
  {
    if n >= 10 {
      LeadingDigit(n / 10);
    }
  }

  lemma DigitsTextRoundTrip(m: nat, rest: string)
    requires Follows(rest)
    ensures ParseDigits(NatToString(m) + rest) == Some((m, rest))
  {
    var ds := NatToString(m);
    var u := ds + rest;
    DigitPrefixOf(ds, rest);
    assert u[|ds|..] == rest;
    LeadingDigit(m);
    DigitsRoundTrip(m);
    assert rest != [] ==> rest[0] != '.' && rest[0] != 'e' && rest[0] != 'E';
  }

  lemma NumberRoundTrip(n: int, rest: string)
    requires Follows(rest)
    ensures ParseNumber(IntToString(n) + rest) == Some((Num(n), rest))
  {
    if n < 0 {
      NegativeRoundTrip(-n, rest);
    } else {
      NonNegativeRoundTrip(n, rest);
    }
  }

  lemma NegativeRoundTrip(m: nat, rest: string)
    requires m > 0 && Follows(rest)
    ensures ParseNumber("-" + NatToString(m) + rest) == Some((Num(-(m as int)), rest))
  {
    var t := "-" + NatToString(m) + rest;
    assert t[0] == '-';
    assert t[1..] == NatToString(m) + rest;
    DigitsTextRoundTrip(m, rest);
  }

  lemma NonNegativeRoundTrip(m: nat, rest: string)
    requires Follows(rest)
    ensures ParseNumber(NatToString(m) + rest) == Some((Num(m), rest))
  {
    var t := NatToString(m) + rest;
    assert IsDigit(t[0]) && t[0] != '-';
    DigitsTextRoundTrip(m, rest);
  }

  // How ParseValue dispatches on the first character of text without
  // leading white space.

  lemma DispatchWord(t: string)
    requires t != [] && SkipWs(t) == t && (t[0] == 'n' || t[0] == 't' || t[0] == 'f')
    ensures t[0] == 'n' ==> ParseValue(t) == Literal(t, "null", Null)
    ensures t[0] == 't' ==> ParseValue(t) == Literal(t, "true", Bool(true))
    ensures t[0] == 'f' ==> ParseValue(t) == Literal(t, "false", Bool(false))
  {
  }

  lemma DispatchString(t: string)
    requires t != [] && SkipWs(t) == t && t[0] == '"'
    ensures ParseValue(t) == match ParseString(t[1..]) case None => None case Some((str, u)) => Some((Str(str), u))
  {
    assert t[0] != 'n' && t[0] != 't' && t[0] != 'f';
  }

  lemma DispatchArray(t: string)
    requires t != [] && SkipWs(t) == t && t[0] == '['
    ensures ParseValue(t) == ParseArray(t[1..])
  {
    assert t[0] != 'n' && t[0] != 't' && t[0] != 'f' && t[0] != '"';
  }

  lemma DispatchObject(t: string)
    requires t != [] && SkipWs(t) == t && t[0] == '{'
    ensures ParseValue(t) == ParseObject(t[1..])
  {
    assert t[0] != 'n' && t[0] != 't' && t[0] != 'f' && t[0] != '"' && t[0] != '[';
  }

  lemma DispatchNumber(t: string)
    requires t != [] && SkipWs(t) == t && (t[0] == '-' || IsDigit(t[0]))
    ensures ParseValue(t) == ParseNumber(t)
  {
    assert t[0] != 'n' && t[0] != 't' && t[0] != 'f' && t[0] != '"' && t[0] != '[' && t[0] != '{';
  }

  lemma {:induction false} DigitPrefixOf(ds: string, rest: string)
    requires forall i :: 0 <= i < |ds| ==> IsDigit(ds[i])
    requires Follows(rest)
    ensures DigitPrefix(ds + rest) == ds
  {
    if ds != [] {
      assert (ds + rest)[1..] == ds[1..] + rest;
      DigitPrefixOf(ds[1..], rest);
    }
  }

  // How arrays and objects are read one element or member at a time.

  lemma ArrayEmpty(rest: string)
    ensures ParseArray("]" + rest) == Some((Arr([]), rest))
  {
    var s := "]" + rest;
    assert !IsWs(s[0]);
    assert s[1..] == rest;
  }

  lemma ArrayStart(s: string)
    requires s != [] && !IsWs(s[0]) && s[0] != ']'
    ensures ParseArray(s) == ParseElements(s, [])
  {
  }

  lemma ElementsStep(s: string, acc: seq<Json>, v: Json, u: string)
    requires ParseValue(s) == Some((v, u)) && u != [] && u[0] == ','
    ensures ParseElements(s, acc) == ParseElements(u[1..], acc + [v])
  {
    assert !IsWs(u[0]);
  }

  lemma ElementsLast(s: string, acc: seq<Json>, v: Json, u: string)
    requires ParseValue(s) == Some((v, u)) && u != [] && u[0] == ']'
    ensures ParseElements(s, acc) == Some((Arr(acc + [v]), u[1..]))
  {
    assert !IsWs(u[0]) && u[0] != ',';
  }

  lemma ObjectEmpty(rest: string)
    ensures ParseObject("}" + rest) == Some((Obj([]), rest))
  {
    var s := "}" + rest;
    assert !IsWs(s[0]);
    assert s[1..] == rest;
  }

  lemma ObjectStart(s: string)
    requires s != [] && s[0] == '"'
    ensures ParseObject(s) == ParseMembers(s, [])
  {
    assert !IsWs(s[0]) && s[0] != '}';
  }

  lemma MembersStep(s: string, acc: seq<Field>, key: string, u: string, v: Json, x: string)
    requires s != [] && s[0] == '"' && ParseString(s[1..]) == Some((key, u))
    requires u != [] && u[0] == ':' && ParseValue(u[1..]) == Some((v, x))
    requires x != [] && x[0] == ','
    ensures ParseMembers(s, acc) == ParseMembers(x[1..], acc + [Field(key, v)])
  {
    assert !IsWs(s[0]) && !IsWs(u[0]) && !IsWs(x[0]);
  }

  lemma MembersLast(s: string, acc: seq<Field>, key: string, u: string, v: Json, x: string)
    requires s != [] && s[0] == '"' && ParseString(s[1..]) == Some((key, u))
    requires u != [] && u[0] == ':' && ParseValue(u[1..]) == Some((v, x))
    requires x != [] && x[0] == '}'
    ensures ParseMembers(s, acc) == Some((Obj(acc + [Field(key, v)]), x[1..]))
  {
    assert !IsWs(s[0]) && !IsWs(u[0]) && !IsWs(x[0]) && x[0] != ',';
  }

  lemma LiteralRoundTrip(v: Json, rest: string)
    requires v.Undefined? || v.Null? || v.NaN? || v.Bool?
    ensures ParseValue(Encode(v) + rest) == Some((Normal(v), rest))
  {
    var t := Encode(v) + rest;
    assert t[0] == Encode(v)[0];
    assert SkipWs(t) == t;
    DispatchWord(t);
    if v.Bool? && !v.b {
      assert t[..5] == "false" && t[5..] == rest;
    } else if v.Bool? {
      assert t[..4] == "true" && t[4..] == rest;
    } else {
      assert t[..4] == "null" && t[4..] == rest;
    }
  }

  lemma NumberValueRoundTrip(n: int, rest: string)
    requires Follows(rest)
    ensures ParseValue(Encode(Num(n)) + rest) == Some((Num(n), rest))
  {
    var t := Encode(Num(n)) + rest;
    assert t[0] == Encode(Num(n))[0];
    assert SkipWs(t) == t;
    DispatchNumber(t);
    NumberRoundTrip(n, rest);
  }

  lemma StringValueRoundTrip(s: string, rest: string)
    ensures ParseValue(Encode(Str(s)) + rest) == Some((Str(s), rest))
  {
    var t := Encode(Str(s)) + rest;
    assert t[0] == '"';
    assert SkipWs(t) == t;
    DispatchString(t);
    assert t[1..] == EscapeAll(s) + ['"'] + rest;
    QuoteRoundTrip(s, rest);
  }

  lemma {:induction false} ValueRoundTrip(v: Json, rest: string)
    requires Follows(rest)
    ensures ParseValue(Encode(v) + rest) == Some((Normal(v), rest))
    decreases v, 4
  {
    match v
    case Num(n) => NumberValueRoundTrip(n, rest);
    case Str(s) => StringValueRoundTrip(s, rest);
    case Arr(items) => ArrayValueRoundTrip(items, rest);
    case Obj(fs) => ObjectValueRoundTrip(fs, rest);
    case _ => LiteralRoundTrip(v, rest);
  }

  lemma {:induction false} ArrayValueRoundTrip(items: seq<Json>, rest: string)
    requires Follows(rest)
    ensures ParseValue(Encode(Arr(items)) + rest) == Some((Arr(NormalItems(items)), rest))
    decreases items, 3
  {
    var t, inner := Encode(Arr(items)) + rest, EncodeItems(items) + "]" + rest;
    assert t == "[" + inner by {
      Associative("[", EncodeItems(items), "]");
      Associative("[", EncodeItems(items) + "]", rest);
    }
    assert t[0] == '[' && t[1..] == inner;
    assert SkipWs(t) == t;
    DispatchArray(t);
    ArrayRoundTrip(items, rest);
  }

  lemma {:induction false} ObjectValueRoundTrip(fs: seq<Field>, rest: string)
    requires Follows(rest)
    ensures ParseValue(Encode(Obj(fs)) + rest) == Some((Obj(NormalMembers(fs)), rest))
    decreases fs, 3
  {
    var t, inner := Encode(Obj(fs)) + rest, EncodeMembers(fs) + "}" + rest;
    assert t == "{" + inner by {
      Associative("{", EncodeMembers(fs), "}");
      Associative("{", EncodeMembers(fs) + "}", rest);
    }
    assert t[0] == '{' && t[1..] == inner;
    assert SkipWs(t) == t;
    DispatchObject(t);
    ObjectRoundTrip(fs, rest);
  }

  lemma {:induction false} ArrayRoundTrip(items: seq<Json>, rest: string)
    requires Follows(rest)
    ensures ParseArray(EncodeItems(items) + "]" + rest) == Some((Arr(NormalItems(items)), rest))
    decreases items, 2
  {
    var s := EncodeItems(items) + "]" + rest;
    if items == [] {
      assert s == "]" + rest;
      ArrayEmpty(rest);
    } else {
      var first := Encode(items[0]);
      assert s[0] == first[0];
      assert !IsWs(s[0]) && s[0] != ']';
      ArrayStart(s);
      ItemsRoundTrip(items, [], rest);
      assert [] + NormalItems(items) == NormalItems(items);
    }
  }

  lemma {:induction false} ObjectRoundTrip(fs: seq<Field>, rest: string)
    requires Follows(rest)
    ensures ParseObject(EncodeMembers(fs) + "}" + rest) == Some((Obj(NormalMembers(fs)), rest))
    decreases fs, 2
  {
    var s := EncodeMembers(fs) + "}" + rest;
    EmptyMembers(fs);
    if EncodeMembers(fs) == "" {
      assert s == "}" + rest;
      ObjectEmpty(rest);
    } else {
      MembersStartWithQuote(fs);
      assert s[0] == '"';
      ObjectStart(s);
      MembersRoundTrip(fs, [], rest);
      assert [] + NormalMembers(fs) == NormalMembers(fs);
    }
  }

  lemma {:induction false} ItemsRoundTrip(items: seq<Json>, acc: seq<Json>, rest: string)
    requires items != [] && Follows(rest)
    ensures ParseElements(EncodeItems(items) + "]" + rest, acc) == Some((Arr(acc + NormalItems(items)), rest))
    decreases items, 1
  {
    var x := items[0];
    var s := EncodeItems(items) + "]" + rest;
    if |items| == 1 {
      LastItemRoundTrip(items, acc, rest);
    } else {
      var tail := EncodeItems(items[1..]) + "]" + rest;
      HeadItemRoundTrip(items, rest);
      ItemsRoundTrip(items[1..], acc + [Normal(x)], rest);
      assert acc + [Normal(x)] + NormalItems(items[1..]) == acc + NormalItems(items);
      ElementsChain(s, acc, Normal(x), tail, Some((Arr(acc + NormalItems(items)), rest)));
    }
  }

  lemma {:induction false} LastItemRoundTrip(items: seq<Json>, acc: seq<Json>, rest: string)
    requires |items| == 1 && Follows(rest)
    ensures ParseElements(EncodeItems(items) + "]" + rest, acc) == Some((Arr(acc + NormalItems(items)), rest))
    decreases items, 0
  {
    var x := items[0];
    var s := EncodeItems(items) + "]" + rest;
    var after := "]" + rest;
    assert s == Encode(x) + after;
    ValueRoundTrip(x, after);
    ElementsLast(s, acc, Normal(x), after);
    assert after[1..] == rest;
    assert NormalItems(items) == [Normal(x)];
  }

  lemma {:induction false} HeadItemRoundTrip(items: seq<Json>, rest: string)
    requires |items| > 1 && Follows(rest)
    ensures ParseValue(EncodeItems(items) + "]" + rest)
         == Some((Normal(items[0]), "," + (EncodeItems(items[1..]) + "]" + rest)))
    decreases items, 0
  {
    var tail := EncodeItems(items[1..]) + "]" + rest;
    assert EncodeItems(items) + "]" + rest == Encode(items[0]) + ("," + tail);
    ValueRoundTrip(items[0], "," + tail);
  }

  lemma ElementsChain(s: string, acc: seq<Json>, v: Json, tail: string, r: Option<(Json, string)>)
    requires ParseValue(s) == Some((v, "," + tail))
    requires ParseElements(tail, acc + [v]) == r
    ensures ParseElements(s, acc) == r
  {
    ElementsStep(s, acc, v, "," + tail);
    assert ("," + tail)[1..] == tail;
  }

  lemma {:induction false} EmptyMembers(fs: seq<Field>)
    ensures EncodeMembers(fs) == "" <==> NormalMembers(fs) == []
  {
    if fs != [] && fs[0].value.Undefined? {
      EmptyMembers(fs[1..]);
    }
  }

  lemma {:induction false} MembersStartWithQuote(fs: seq<Field>)
    requires EncodeMembers(fs) != ""
    ensures EncodeMembers(fs)[0] == '"'
  {
    if fs[0].value.Undefined? {
      MembersStartWithQuote(fs[1..]);
    }
  }

  lemma {:induction false} MembersRoundTrip(fs: seq<Field>, acc: seq<Field>, rest: string)
    requires EncodeMembers(fs) != "" && Follows(rest)
    ensures ParseMembers(EncodeMembers(fs) + "}" + rest, acc) == Some((Obj(acc + NormalMembers(fs)), rest))
    decreases fs, 1
  {
    if fs[0].value.Undefined? {
      MembersRoundTrip(fs[1..], acc, rest);
    } else if EncodeMembers(fs[1..]) == "" {
      OnlyMemberRoundTrip(fs, acc, rest);
    } else {
      ConsMemberRoundTrip(fs, acc, rest);
    }
  }

  lemma {:induction false} OnlyMemberRoundTrip(fs: seq<Field>, acc: seq<Field>, rest: string)
    requires fs != [] && !fs[0].value.Undefined? && EncodeMembers(fs[1..]) == "" && Follows(rest)
    ensures ParseMembers(EncodeMembers(fs) + "}" + rest, acc) == Some((Obj(acc + NormalMembers(fs)), rest))
    decreases fs, 0
  {
    var f := fs[0];
    assert EncodeMembers(fs) == Quote(f.key) + ":" + Encode(f.value);
    LastMemberRoundTrip(f, acc, rest);
    EmptyMembers(fs[1..]);
    assert NormalMembers(fs) == [Field(f.key, Normal(f.value))];
  }

  lemma {:induction false} ConsMemberRoundTrip(fs: seq<Field>, acc: seq<Field>, rest: string)
    requires fs != [] && !fs[0].value.Undefined? && EncodeMembers(fs[1..]) != "" && Follows(rest)
    ensures ParseMembers(EncodeMembers(fs) + "}" + rest, acc) == Some((Obj(acc + NormalMembers(fs)), rest))
    decreases fs, 0
  {
    var f := fs[0];
    var field := Field(f.key, Normal(f.value));
    var tail := EncodeMembers(fs[1..]) + "}" + rest;
    ConsMemberText(fs, rest);
    MemberStepRoundTrip(f, acc, tail);
    MembersRoundTrip(fs[1..], acc + [field], rest);
    DefinedMemberFirst(fs, acc);
  }

  lemma DefinedMemberFirst(fs: seq<Field>, acc: seq<Field>)
    requires fs != [] && !fs[0].value.Undefined?
    ensures acc + [Field(fs[0].key, Normal(fs[0].value))] + NormalMembers(fs[1..]) == acc + NormalMembers(fs)
  {
    assert NormalMembers(fs) == [Field(fs[0].key, Normal(fs[0].value))] + NormalMembers(fs[1..]);
  }

  lemma ConsMemberText(fs: seq<Field>, rest: string)
    requires fs != [] && !fs[0].value.Undefined? && EncodeMembers(fs[1..]) != ""
    ensures EncodeMembers(fs) + "}" + rest
         == Quote(fs[0].key) + ":" + Encode(fs[0].value) + "," + (EncodeMembers(fs[1..]) + "}" + rest)
  {
  }

  lemma {:induction false} LastMemberRoundTrip(f: Field, acc: seq<Field>, rest: string)
    requires Follows(rest)
    ensures ParseMembers(Quote(f.key) + ":" + Encode(f.value) + "}" + rest, acc)
         == Some((Obj(acc + [Field(f.key, Normal(f.value))]), rest))
    decreases f, 1
  {
    var head, after := Quote(f.key) + ":" + Encode(f.value), "}" + rest;
    MemberHeadRoundTrip(f, after);
    Associative(head, "}", rest);
    MembersLast(head + after, acc, f.key, ":" + (Encode(f.value) + after), Normal(f.value), after);
    assert after[1..] == rest;
  }

  lemma {:induction false} MemberStepRoundTrip(f: Field, acc: seq<Field>, tail: string)
    ensures ParseMembers(Quote(f.key) + ":" + Encode(f.value) + "," + tail, acc)
         == ParseMembers(tail, acc + [Field(f.key, Normal(f.value))])
    decreases f, 1
  {
    var head, after := Quote(f.key) + ":" + Encode(f.value), "," + tail;
    MemberHeadRoundTrip(f, after);
    Associative(head, ",", tail);
    MembersStep(head + after, acc, f.key, ":" + (Encode(f.value) + after), Normal(f.value), after);
    assert after[1..] == tail;
  }

  /** A member's key and value read back from its text. */
  lemma {:induction false} MemberHeadRoundTrip(f: Field, after: string)
    requires Follows(after)
    ensures var s := Quote(f.key) + ":" + Encode(f.value) + after;
      var valueText := ":" + (Encode(f.value) + after);
      && s != [] && s[0] == '"' && ParseString(s[1..]) == Some((f.key, valueText))
      && ParseValue(valueText[1..]) == Some((Normal(f.value), after))
    decreases f, 0
  {
    var valueText := ":" + (Encode(f.value) + after);
    assert Quote(f.key) + ":" + Encode(f.value) + after == Quote(f.key) + valueText;
    KeyRoundTrip(f.key, valueText);
    assert valueText[1..] == Encode(f.value) + after;
    ValueRoundTrip(f.value, after);
  }

  lemma KeyRoundTrip(key: string, rest: string)
    ensures var s := Quote(key) + rest;
      s != [] && s[0] == '"' && ParseString(s[1..]) == Some((key, rest))
  {
    var s := Quote(key) + rest;
    assert s == ['"'] + (EscapeAll(key) + ['"'] + rest);
    assert s[1..] == EscapeAll(key) + ['"'] + rest;
    QuoteRoundTrip(key, rest);
  }

  /** Every value reads back from its JSON text as its normal form. */
  lemma RoundTrip(v: Json)
    ensures Parse(Encode(v)) == Some(Normal(v))
  {
    ValueRoundTrip(v, []);
    assert Encode(v) + [] == Encode(v);
  }
}
