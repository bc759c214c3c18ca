/**
 * The slice of JavaScript value semantics the handlers depend on: JSON
 * values and their truthiness, `a || b` on optional strings, `parseInt`,
 * comparisons with NaN, `Array.prototype.slice` and template rendering of a
 * possibly undefined string.
 */
module Js {

  import opened Wrappers
  import opened Strings

  /** A JSON value as it arrives in a request body (objects are opaque). */
  datatype Value =
    | Undefined
    | Null
    | Bool(b: bool)
    | Num(x: real)
    | Str(s: string)
    | Arr(items: seq<Value>)
    | Object

  /** JavaScript truthiness: `false`, `0`, `""`, `null` and `undefined` are falsy. */
  predicate Truthy(v: Value)
  {
    match v
    case Undefined => false
    case Null => false
    case Bool(b) => b
    case Num(x) => x != 0.0
    case Str(s) => s != []
    case Arr(_) => true
    case Object => true
  }

  /** `typeof v === "string" && v` : a non-empty string. */
  predicate IsNonEmptyString(v: Value)
  {
    v.Str? && v.s != []
  }

  lemma TruthyStringIsNonEmpty(v: Value)
    requires v.Str?
    ensures Truthy(v) <==> IsNonEmptyString(v)
  {
  }

  /** `v || d`: the value itself when truthy, else the default. */
  function Or(v: Value, d: Value): (r: Value)
    ensures Truthy(v) ==> r == v
    ensures !Truthy(v) ==> r == d
  {
    if Truthy(v) then v else d
  }

  /** `s || d` for an optional string: an absent or empty string gives `d`. */
  function OrElse(s: Option<string>, d: string): (r: string)
    ensures s.Some? && s.value != [] ==> r == s.value
    ensures s.None? || s.value == [] ==> r == d
  {
    if s.Some? && s.value != [] then s.value else d
  }

  /** Template rendering `${s}` of a possibly undefined string. */
  function Template(s: Option<string>): (r: string)
    ensures s.Some? ==> r == s.value
    ensures s.None? ==> r == "undefined"
  {
    match s
    case Some(v) => v
    case None => "undefined"
  }

  /** The result of `parseInt`: an integer or NaN. */
  datatype ParsedInt = Int(n: int) | NaN

  /** `a < b` where `b` may be NaN: every comparison with NaN is false. */
  predicate Less(a: int, b: ParsedInt)
  {
    b.Int? && a < b.n
  }

  lemma NaNIsNeverGreater(a: int)
    ensures !Less(a, NaN)
  {
  }

  /** A JavaScript number as a client-side component holds it. */
  datatype Number = Real(x: real) | NotANumber

  function HexValue(c: char): (r: Option<nat>)
    ensures r.Some? ==> r.value < 16
    ensures IsDigit(c) ==> r == Some(DigitValue(c))
  {
    if IsDigit(c) then Some(DigitValue(c))
    else if 'a' <= c <= 'f' then Some(c as int - 'a' as int + 10)
    else if 'A' <= c <= 'F' then Some(c as int - 'A' as int + 10)
    else None
  }

  /** The value of digit `c` in base `radix` (10 or 16), if it is one. */
  function RadixDigit(c: char, radix: nat): (r: Option<nat>)
    requires radix == 10 || radix == 16
    ensures r.Some? ==> r.value < radix
    ensures radix == 10 ==> (r.Some? <==> IsDigit(c))
  {
    if radix == 10 then (if IsDigit(c) then Some(DigitValue(c)) else None)
    else HexValue(c)
  }

  /** The longest prefix of `s` made of digits of base `radix`. */
  function DigitPrefix(s: string, radix: nat): (r: string)
    requires radix == 10 || radix == 16
    ensures StartsWith(s, r)
    ensures forall i :: 0 <= i < |r| ==> RadixDigit(r[i], radix).Some?
    ensures |r| < |s| ==> RadixDigit(s[|r|], radix).None?
  {
    if s != [] && RadixDigit(s[0], radix).Some? then [s[0]] + DigitPrefix(s[1..], radix) else []
  }

  function RadixValue(s: string, radix: nat): nat
    requires radix == 10 || radix == 16
    requires forall i :: 0 <= i < |s| ==> RadixDigit(s[i], radix).Some?
  {
    if s == [] then 0
    else radix * RadixValue(s[..|s| - 1], radix) + RadixDigit(s[|s| - 1], radix).value
  }

  lemma {:induction false} RadixTenIsDecimal(s: string)
    requires AllDigits(s)
    ensures RadixValue(s, 10) == DigitsValue(s)
  {
    if s != [] {
      RadixTenIsDecimal(s[..|s| - 1]);
    }
  }

  /** The digits and base `parseInt` reads once white space and sign are gone. */
  function DigitsAndRadix(body: string, radix: Option<nat>): (r: (string, nat))
    requires radix == None || radix == Some(10)
    ensures r.1 == 10 || r.1 == 16
  {
    if radix.None? && |body| >= 2 && body[0] == '0' && (body[1] == 'x' || body[1] == 'X')
    then (body[2..], 16)
    else (body, 10)
  }

  /**
   * `parseInt(s)` (radix `None`) and `parseInt(s, 10)`: leading white space
   * and one sign are skipped, `0x` selects base 16 when no radix is given,
   * and the longest run of digits is read; no digit at all gives NaN.
   */
  function ParseInt(s: string, radix: Option<nat>): (r: ParsedInt)
    requires radix == None || radix == Some(10)
  {
    var t := TrimStart(s);
    var negative := t != [] && t[0] == '-';
    var body := if t != [] && (t[0] == '-' || t[0] == '+') then t[1..] else t;
    var (text, base) := DigitsAndRadix(body, radix);
    var digits := DigitPrefix(text, base);
    var value: int := RadixValue(digits, base);
    if digits == [] then NaN
    else if negative then Int(-value)
    else Int(value)
  }

  /** Reading back a rendered natural number gives the number. */
  lemma ParseIntOfNatToString(n: nat, radix: Option<nat>)
    requires radix == None || radix == Some(10)
    ensures ParseInt(NatToString(n), radix) == Int(n)
  {
    var s := NatToString(n);
    assert !IsSpace(s[0]) && s[0] != '-' && s[0] != '+';
    assert TrimStart(s) == s;
    assert DigitsAndRadix(s, radix) == (s, 10) by {
      if |s| >= 2 {
        assert IsDigit(s[1]);
      }
    }
    DigitPrefixAll(s);
    RadixTenIsDecimal(s);
    NatToStringValue(n);
  }

  lemma {:induction false} DigitPrefixAll(s: string)
    requires AllDigits(s)
    ensures DigitPrefix(s, 10) == s
  {
    if s != [] {
      DigitPrefixAll(s[1..]);
    }
  }

  lemma ParseIntOfNonDigitStart(s: string, radix: Option<nat>)
    requires radix == None || radix == Some(10)
    requires s != [] && !IsDigit(s[0]) && !IsSpace(s[0]) && s[0] != '-' && s[0] != '+'
    ensures ParseInt(s, radix) == NaN
  {
  }

  /** How `slice` resolves a relative index against a length. */
  function RelativeIndex(k: int, len: nat): (r: nat)
    ensures r <= len
  {
    if k < 0 then (if len + k < 0 then 0 else len + k) else if k > len then len else k
  }

  /** `a.slice(0, end)`. */
  function SliceTo<T>(a: seq<T>, end: int): (r: seq<T>)
    ensures |r| <= |a| && r == a[..|r|]
    ensures 0 <= end ==> |r| == (if end < |a| then end else |a|)
  {
    a[..RelativeIndex(end, |a|)]
  }

  /** The integer part of a real, rounding toward zero (`ToIntegerOrInfinity`). */
  function Trunc(x: real): int
  {
    if x >= 0.0 then x.Floor else -((-x).Floor)
  }

  lemma TruncOfInt(n: int)
    ensures Trunc(n as real) == n
  {
  }
}
