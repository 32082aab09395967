/**
 * The JavaScript values and the built-in conversions the storefront relies on:
 * truthiness, `||`, `===`, `String(v)`, `Number(v)`, `parseInt`, `+`, property
 * access, `trim`, ASCII case mapping and UTF-16 string length.
 *
 * Numbers are integers (or NaN); fractional numbers are not modelled.
 */
module Js {

  datatype Option<T> = None | Some(value: T)

  /** A JavaScript value as the storefront passes it around: the primitives,
      arrays and plain objects (fields in insertion order). */
  datatype Json =
    | Undefined
    | Null
    | Bool(b: bool)
    | Num(n: int)
    | NaN
    | Str(s: string)
    | Arr(items: seq<Json>)
    | Obj(fields: seq<Field>)

  datatype Field = Field(key: string, value: Json)

  /** `!!v` */
  predicate Truthy(v: Json)
  {
    match v
    case Undefined => false
    case Null => false
    case NaN => false
    case Bool(b) => b
    case Num(n) => n != 0
    case Str(s) => s != ""
    case Arr(_) => true
    case Obj(_) => true
  }

  /** `a || b` */
  function Or(a: Json, b: Json): (r: Json)
    ensures Truthy(a) ==> r == a
    ensures !Truthy(a) ==> r == b
  {
    if Truthy(a) then a else b
  }

  /** `a === b`. Arrays and objects are never `===` here: every one this
      program compares was built or parsed separately. */
  predicate StrictEq(a: Json, b: Json)
  {
    match (a, b)
    case (Undefined, Undefined) => true
    case (Null, Null) => true
    case (Bool(x), Bool(y)) => x == y
    case (Num(x), Num(y)) => x == y
    case (Str(x), Str(y)) => x == y
    case _ => false
  }

  // ---------------------------------------------------------------- properties

  /** `v.k`: the last field named `k` (the one JSON.parse keeps), or undefined. */
  function Get(v: Json, k: string): Json
  {
    match v
    case Obj(fs) => LastValue(fs, k)
    case _ => Undefined
  }

  function LastValue(fs: seq<Field>, k: string): Json
  {
    var i := LastIndex(fs, k);
    if i < 0 then Undefined else fs[i].value
  }

  /** Position of the last field named `k`, or -1. */
  function LastIndex(fs: seq<Field>, k: string): (i: int)
    ensures -1 <= i < |fs|
    ensures i >= 0 ==> fs[i].key == k && forall j :: i < j < |fs| ==> fs[j].key != k
    ensures i == -1 ==> forall j :: 0 <= j < |fs| ==> fs[j].key != k
  {
    if fs == [] then -1
    else if fs[|fs| - 1].key == k then |fs| - 1
    else LastIndex(fs[..|fs| - 1], k)
  }

  /** `v.k = x`: an object gets its field overwritten or appended; assigning a
      property of a primitive has no effect. */
  function Put(v: Json, k: string, x: Json): Json
  {
    match v
    case Obj(fs) =>
      var i := LastIndex(fs, k);
      if i < 0 then Obj(fs + [Field(k, x)]) else Obj(fs[i := Field(k, x)])
    case _ => v
  }

  lemma LastIndexIs(fs: seq<Field>, k: string, i: int)
    requires -1 <= i < |fs|
    requires i >= 0 ==> fs[i].key == k
    requires forall j :: i < j < |fs| ==> fs[j].key != k
    ensures LastIndex(fs, k) == i
  {
  }

  /** Reading a property right after assigning it gives the assigned value. */
  lemma PutThenGet(v: Json, k: string, x: Json)
    requires v.Obj?
    ensures Get(Put(v, k, x), k) == x
  {
    var fs := v.fields;
    var i := LastIndex(fs, k);
    if i < 0 {
      var g := fs + [Field(k, x)];
      assert Put(v, k, x) == Obj(g);
      AppendedIsLast(fs, k, x);
      assert LastValue(g, k) == x;
    } else {
      var g := fs[i := Field(k, x)];
      assert Put(v, k, x) == Obj(g);
      LastIndexIs(g, k, i);
      assert LastValue(g, k) == x;
    }
  }

  lemma AppendedIsLast(fs: seq<Field>, k: string, x: Json)
    ensures LastIndex(fs + [Field(k, x)], k) == |fs|
  {
  }

  /** Assigning one property leaves every other property as it was. */
  lemma PutKeepsOthers(v: Json, k: string, x: Json, k': string)
    requires v.Obj? && k' != k
    ensures Get(Put(v, k, x), k') == Get(v, k')
  {
    var fs := v.fields;
    var i := LastIndex(fs, k);
    var g := if i < 0 then fs + [Field(k, x)] else fs[i := Field(k, x)];
    assert Put(v, k, x) == Obj(g);
    if i < 0 {
      AppendKeepsOthers(fs, Field(k, x), k');
    } else {
      UpdateKeepsOthers(fs, i, Field(k, x), k');
    }
    assert LastValue(g, k') == LastValue(fs, k');
  }

  lemma AppendKeepsOthers(fs: seq<Field>, f: Field, k': string)
    requires f.key != k'
    ensures LastIndex(fs + [f], k') == LastIndex(fs, k')
    ensures LastIndex(fs, k') >= 0 ==> (fs + [f])[LastIndex(fs, k')] == fs[LastIndex(fs, k')]
  {
    assert (fs + [f])[..|fs|] == fs;
  }

  lemma UpdateKeepsOthers(fs: seq<Field>, i: int, f: Field, k': string)
    requires 0 <= i < |fs| && fs[i].key != k' && f.key != k'
    ensures LastIndex(fs[i := f], k') == LastIndex(fs, k')
  {
    var j := LastIndex(fs, k');
    LastIndexIs(fs[i := f], k', j);
  }

  /** The elements of an array value; code that iterates a non-array is
      treated as iterating nothing. */
  function Items(v: Json): seq<Json>
  {
    if v.Arr? then v.items else []
  }

  // ------------------------------------------------------------------ strings

  predicate IsDigit(c: char)
  {
    '0' <= c <= '9'
  }

  function DigitChar(d: int): (c: char)
    requires 0 <= d < 10
    ensures IsDigit(c) && c as int - '0' as int == d
  {
    ('0' as int + d) as char
  }

  function DigitValue(c: char): (d: int)
    requires IsDigit(c)
    ensures 0 <= d < 10 && DigitChar(d) == c
  {
    c as int - '0' as int
  }

  /** Decimal digits of a natural number, most significant first. */
  function NatToString(n: nat): (s: string)
    ensures s != [] && forall i :: 0 <= i < |s| ==> IsDigit(s[i])
  {
    if n < 10 then [DigitChar(n)] else NatToString(n / 10) + [DigitChar(n % 10)]
  }

  /** `String(n)` for an integer-valued number. */
  function IntToString(n: int): string
  {
    if n < 0 then "-" + NatToString(-n) else NatToString(n)
  }

  /** Value of a string of decimal digits. */
  function DigitsValue(s: string): nat
    requires forall i :: 0 <= i < |s| ==> IsDigit(s[i])
  {
    if s == [] then 0 else 10 * DigitsValue(s[..|s| - 1]) + DigitValue(s[|s| - 1])
  }

  lemma {:induction false} DigitsRoundTrip(n: nat)
    ensures DigitsValue(NatToString(n)) == n
  {
    if n >= 10 {
      var s := NatToString(n);
      assert s[..|s| - 1] == NatToString(n / 10);
      DigitsRoundTrip(n / 10);
    }
  }

  function Join(parts: seq<string>, sep: string): string
  {
    if parts == [] then ""
    else if |parts| == 1 then parts[0]
    else parts[0] + sep + Join(parts[1..], sep)
  }

  /** `String(v)`. An array prints its elements joined by commas, with null and
      undefined elements printed as nothing. */
  function ToStr(v: Json): string
  {
    match v
    case Undefined => "undefined"
    case Null => "null"
    case NaN => "NaN"
    case Bool(b) => if b then "true" else "false"
    case Num(n) => IntToString(n)
    case Str(s) => s
    case Arr(items) => Join(ElementStrings(items), ",")
    case Obj(_) => "[object Object]"
  }

  function ElementStrings(items: seq<Json>): (r: seq<string>)
    ensures |r| == |items|
  {
    if items == [] then []
    else
      var first := if items[0].Undefined? || items[0].Null? then "" else ToStr(items[0]);
      [first] + ElementStrings(items[1..])
  }

  /** The characters `String.prototype.trim` removes: WhiteSpace and
      LineTerminator of ECMA-262. */
  predicate IsSpace(c: char)
  {
    var k := c as int;
    (0x09 <= k <= 0x0D) || k == 0x20 || k == 0xA0 || k == 0x1680
    || (0x2000 <= k <= 0x200A) || k == 0x2028 || k == 0x2029 || k == 0x202F
    || k == 0x205F || k == 0x3000 || k == 0xFEFF
  }

  function TrimStart(s: string): (r: string)
    ensures |r| <= |s| && r == s[|s| - |r|..]
    ensures r == [] || !IsSpace(r[0])
    ensures forall i :: 0 <= i < |s| - |r| ==> IsSpace(s[i])
  {
    if s != [] && IsSpace(s[0]) then TrimStart(s[1..]) else s
  }

  function TrimEnd(s: string): (r: string)
    ensures |r| <= |s| && r == s[..|r|]
    ensures r == [] || !IsSpace(r[|r| - 1])
    ensures forall i :: |r| <= i < |s| ==> IsSpace(s[i])
  {
    if s != [] && IsSpace(s[|s| - 1]) then TrimEnd(s[..|s| - 1]) else s
  }

  /** `s.trim()` */
  function Trim(s: string): (r: string)
    ensures r == [] || (!IsSpace(r[0]) && !IsSpace(r[|r| - 1]))
  {
    TrimEnd(TrimStart(s))
  }

  lemma TrimOfTrimmed(s: string)
    requires s == [] || (!IsSpace(s[0]) && !IsSpace(s[|s| - 1]))
    ensures Trim(s) == s
  {
  }

  /** `s.toLowerCase()`, on the ASCII letters. */
  function Lower(s: string): (r: string)
    ensures |r| == |s|
    ensures forall i :: 0 <= i < |s| ==> r[i] == LowerChar(s[i])
  {
    seq(|s|, i requires 0 <= i < |s| => LowerChar(s[i]))
  }

  function LowerChar(c: char): char
  {
    if 'A' <= c <= 'Z' then (c as int + 32) as char else c
  }

  /** `s.toUpperCase()`, on the ASCII letters. */
  function Upper(s: string): (r: string)
    ensures |r| == |s|
    ensures forall i :: 0 <= i < |s| ==> r[i] == UpperChar(s[i])
  {
    seq(|s|, i requires 0 <= i < |s| => UpperChar(s[i]))
  }

  function UpperChar(c: char): char
  {
    if 'a' <= c <= 'z' then (c as int - 32) as char else c
  }

  /** `s.length`: UTF-16 code units, so a character outside the Basic
      Multilingual Plane counts twice. */
  function Utf16Length(s: string): (n: nat)
    ensures |s| <= n <= 2 * |s|
  {
    if s == [] then 0 else Utf16Length(s[..|s| - 1]) + (if s[|s| - 1] as int > 0xFFFF then 2 else 1)
  }

  // ------------------------------------------------------------------ numbers

  /** The longest run of decimal digits at the start of `s`. */
  function DigitPrefix(s: string): (r: string)
    ensures |r| <= |s| && r == s[..|r|]
    ensures forall i :: 0 <= i < |r| ==> IsDigit(r[i])
    ensures |r| == |s| || !IsDigit(s[|r|])
  {
    if s != [] && IsDigit(s[0]) then [s[0]] + DigitPrefix(s[1..]) else []
  }

  /** A leading optionally-signed decimal integer, as `parseInt(s)` reads it;
      None is NaN. */
  function LeadingInt(s: string): Option<int>
  {
    var t := TrimStart(s);
    var neg := t != [] && t[0] == '-';
    var u := if t != [] && (t[0] == '-' || t[0] == '+') then t[1..] else t;
    var ds := DigitPrefix(u);
    if ds == [] then None
    else
      var m: int := DigitsValue(ds);
      Some(if neg then -m else m)
  }

  /** `parseInt(v)` */
  function ParseInt(v: Json): Option<int>
  {
    LeadingInt(ToStr(v))
  }

  /** `parseInt` reads back every integer that `String` prints. */
  lemma ParseIntOfNum(n: int)
    ensures ParseInt(Num(n)) == Some(n)
  {
    var m: nat := if n < 0 then -n else n;
    var u := NatToString(m);
    assert ToStr(Num(n)) == if n < 0 then "-" + u else u;
    DigitsRoundTrip(m);
    LeadingSigned(u, n < 0);
  }

  /** A run of digits, with or without a minus sign, reads back as its
      value. */
  lemma LeadingSigned(u: string, neg: bool)
    requires u != [] && forall i :: 0 <= i < |u| ==> IsDigit(u[i])
    ensures var m: int := DigitsValue(u);
      LeadingInt(if neg then "-" + u else u) == Some(if neg then -m else m)
  {
    DigitPrefixAll(u);
    if neg {
      LeadingMinus(u);
    } else {
      LeadingDigits(u);
    }
  }

  lemma LeadingDigits(u: string)
    requires u != [] && DigitPrefix(u) == u
    ensures LeadingInt(u) == Some(DigitsValue(u))
  {
    assert IsDigit(u[0]);
    TrimStartKeeps(u);
  }

  lemma LeadingMinus(u: string)
    requires u != [] && DigitPrefix(u) == u
    ensures var m: int := DigitsValue(u); LeadingInt("-" + u) == Some(-m)
  {
    var s := "-" + u;
    TrimStartKeeps(s);
    assert s[1..] == u;
    LeadingFrom(s, u);
  }

  lemma LeadingFrom(s: string, u: string)
    requires TrimStart(s) == s && s != [] && s[0] == '-' && s[1..] == u
    requires u != [] && DigitPrefix(u) == u
    ensures var m: int := DigitsValue(u); LeadingInt(s) == Some(-m)
  {
  }

  lemma TrimStartKeeps(s: string)
    requires s != [] && (IsDigit(s[0]) || s[0] == '-')
    ensures TrimStart(s) == s
  {
  }

  lemma {:induction false} DigitPrefixAll(s: string)
    requires forall i :: 0 <= i < |s| ==> IsDigit(s[i])
    ensures DigitPrefix(s) == s
  {
    if s != [] {
      DigitPrefixAll(s[1..]);
    }
  }

  /** `Number(s)` for text: blank is 0, an optionally-signed run of decimal
      digits is its value, anything else is NaN in this integer model. */
  function TextToNumber(s: string): Json
  {
    var t := Trim(s);
    var u := if t != [] && (t[0] == '-' || t[0] == '+') then t[1..] else t;
    if t == [] then Num(0)
    else if u != [] && DigitPrefix(u) == u then
      var m: int := DigitsValue(u);
      Num(if t[0] == '-' then -m else m)
    else NaN
  }

  /** `Number(v)` */
  function ToNumber(v: Json): (r: Json)
    ensures r.Num? || r.NaN?
  {
    match v
    case Undefined => NaN
    case Null => Num(0)
    case NaN => NaN
    case Bool(b) => Num(if b then 1 else 0)
    case Num(n) => v
    case Str(s) => TextToNumber(s)
    case Arr(_) => TextToNumber(ToStr(v))
    case Obj(_) => NaN
  }

  /** `a + b`: string concatenation as soon as either side is a string, array
      or object; numeric addition otherwise. */
  function Add(a: Json, b: Json): (r: Json)
    ensures a.Num? && b.Num? ==> r == Num(a.n + b.n)
    ensures a.Str? ==> r == Str(a.s + ToStr(b))
  {
    if a.Str? || a.Arr? || a.Obj? || b.Str? || b.Arr? || b.Obj? then Str(ToStr(a) + ToStr(b))
    else
      match (ToNumber(a), ToNumber(b))
      case (Num(x), Num(y)) => Num(x + y)
      case _ => NaN
  }

  /** Concatenation regroups; stated once so that long sums of text need
      not be regrouped by the solver. */
  lemma Associative<T>(p: seq<T>, q: seq<T>, r: seq<T>)
    ensures p + (q + r) == (p + q) + r
  {
  }
}
