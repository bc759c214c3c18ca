/**
 * String helpers shared by the routes and components: ASCII case folding,
 * prefix/infix tests, splitting on a separator character, trimming and the
 * decimal rendering of integers used in template strings.
 */
module Strings {

  import opened Wrappers

  predicate IsDigit(c: char) { '0' <= c <= '9' }

  predicate IsAsciiLetter(c: char) { 'a' <= c <= 'z' || 'A' <= c <= 'Z' }

  /** The regular-expression class `\w`: ASCII letters, digits and `_`. */
  predicate IsWordChar(c: char) { IsAsciiLetter(c) || IsDigit(c) || c == '_' }

  /**
   * The white space that `String.prototype.trim` strips: the ECMAScript
   * WhiteSpace characters (tab, vertical tab, form feed, the byte order mark
   * and the Unicode space separators) and the LineTerminator characters.
   */
  predicate IsSpace(c: char)
  {
    c == '\t' || c == '\U{B}' || c == '\U{C}' || c == ' ' || c == '\U{A0}' || c == '\U{FEFF}'
    || c == '\U{1680}' || ('\U{2000}' <= c <= '\U{200A}') || c == '\U{202F}' || c == '\U{205F}'
    || c == '\U{3000}' || c == '\n' || c == '\r' || c == '\U{2028}' || c == '\U{2029}'
  }

  function LowerChar(c: char): (r: char)
    ensures 'A' <= c <= 'Z' ==> r as int == c as int + 32
    ensures !('A' <= c <= 'Z') ==> r == c
  {
    if 'A' <= c <= 'Z' then (c as int + 32) as char else c
  }

  /** `toLowerCase`, restricted to ASCII letters. */
  function Lower(s: string): (r: string)
    ensures |r| == |s|
    ensures forall i :: 0 <= i < |s| ==> r[i] == LowerChar(s[i])
  {
    if s == [] then [] else [LowerChar(s[0])] + Lower(s[1..])
  }

  predicate StartsWith(s: string, p: string)
  {
    |p| <= |s| && s[..|p|] == p
  }

  predicate EndsWith(s: string, p: string)
  {
    |p| <= |s| && s[|s| - |p|..] == p
  }

  /** `s.includes(t)`. */
  predicate Contains(s: string, t: string)
    decreases |s|
  {
    StartsWith(s, t) || (s != [] && Contains(s[1..], t))
  }

  lemma {:induction false} ContainsAt(s: string, t: string, i: nat)
    requires i + |t| <= |s| && s[i..i + |t|] == t
    ensures Contains(s, t)
    decreases i
  {
    if i == 0 {
      assert s[..|t|] == t;
    } else {
      assert s[1..][i - 1..i - 1 + |t|] == s[i..i + |t|];
      ContainsAt(s[1..], t, i - 1);
    }
  }

  /** A string contains every piece it was built from. */
  lemma ContainsMiddle(a: string, b: string, c: string)
    ensures Contains(a + b + c, b)
  {
    assert (a + b + c)[|a|..|a| + |b|] == b;
    ContainsAt(a + b + c, b, |a|);
  }

  lemma {:induction false} ContainsWitness(s: string, t: string) returns (i: nat)
    requires Contains(s, t)
    ensures i + |t| <= |s| && s[i..i + |t|] == t
    decreases |s|
  {
    if StartsWith(s, t) {
      i := 0;
    } else {
      var j := ContainsWitness(s[1..], t);
      assert s[1..][j..j + |t|] == s[j + 1..j + 1 + |t|];
      i := j + 1;
    }
  }

  /** A string without the first character of `t` does not contain `t`. */
  lemma {:induction false} NotContainsFirst(s: string, t: string)
    requires t != [] && t[0] !in s
    ensures !Contains(s, t)
    decreases |s|
  {
    if |t| <= |s| {
      assert s[..|t|][0] == s[0];
    }
    if s != [] {
      NotContainsFirst(s[1..], t);
    }
  }

  /** Index of the first occurrence of character `c`. */
  function IndexOf(s: string, c: char): (r: Option<nat>)
    ensures r.Some? ==> r.value < |s| && s[r.value] == c && c !in s[..r.value]
    ensures r.None? ==> c !in s
  {
    if s == [] then None
    else if s[0] == c then Some(0)
    else match IndexOf(s[1..], c)
      case None => None
      case Some(k) =>
        assert s[..k + 1] == [s[0]] + s[1..][..k];
        Some(k + 1)
  }

  /** Index of the last occurrence of character `c`. */
  function LastIndexOf(s: string, c: char): (r: Option<nat>)
    ensures r.Some? ==> r.value < |s| && s[r.value] == c && c !in s[r.value + 1..]
    ensures r.None? ==> c !in s
  {
    if s == [] then None
    else if s[|s| - 1] == c then Some(|s| - 1)
    else match LastIndexOf(s[..|s| - 1], c)
      case None => None
      case Some(k) =>
        assert s[k + 1..] == s[..|s| - 1][k + 1..] + [s[|s| - 1]];
        Some(k)
  }

  /** The text before the first `c` (all of `s` when there is none): `s.split(c)[0]`. */
  function Before(s: string, c: char): (r: string)
    ensures c !in r
    ensures c !in s ==> r == s
    ensures c in s ==> |r| < |s| && s[|r|] == c
  {
    match IndexOf(s, c)
    case None => s
    case Some(k) => s[..k]
  }

  /** A prefix free of `c` is kept whole by `Before`. */
  lemma BeforeAppend(a: string, b: string, c: char)
    requires c !in a
    ensures Before(a + b, c) == a + Before(b, c)
  {
    var r := Before(a + b, c);
    var t := Before(b, c);
    if c in b {
      assert (a + b)[|a| + |t|] == c;
      assert (a + t) == (a + b)[..|a| + |t|];
    } else {
      assert c !in a + b;
    }
  }

  /** The text after the first `c`, when there is one. */
  function After(s: string, c: char): (r: Option<string>)
    ensures c !in s <==> r.None?
    ensures r.Some? ==> s == Before(s, c) + [c] + r.value
  {
    match IndexOf(s, c)
    case None => None
    case Some(k) =>
      assert s == s[..k] + [c] + s[k + 1..];
      Some(s[k + 1..])
  }

  /** A character other than `c` before the end leaves the first `c` where it was. */
  lemma IndexOfSnoc(s: string, c: char)
    requires c in s
    ensures IndexOf(s + [c], c) == IndexOf(s, c)
    decreases |s|
  {
    if s[0] != c {
      assert (s + [c])[1..] == s[1..] + [c];
      IndexOfSnoc(s[1..], c);
    }
  }

  /** Where `s` has no `c`, the one appended is the first. */
  lemma SnocSeparatorFirst(s: string, c: char)
    requires c !in s
    ensures Before(s + [c], c) == s && After(s + [c], c) == Some([])
  {
    var t := s + [c];
    assert t[|s|] == c && t[..|s|] == s;
    assert IndexOf(t, c) == Some(|s|);
    assert t[|s| + 1..] == [];
  }

  /** Where `s` has a `c`, appending one changes only what follows the first. */
  lemma SnocSeparatorLater(s: string, c: char)
    requires c in s
    ensures Before(s + [c], c) == Before(s, c) && After(s + [c], c) == Some(After(s, c).value + [c])
  {
    IndexOfSnoc(s, c);
    var k := IndexOf(s, c).value;
    assert (s + [c])[k + 1..] == s[k + 1..] + [c];
    assert (s + [c])[..k] == s[..k];
  }

  /** `(s + c).split(c)` has one more, empty, piece. */
  lemma {:induction false} SplitSnoc(s: string, c: char)
    ensures Split(s + [c], c) == Split(s, c) + [[]]
    decreases |s|
  {
    if c !in s {
      SnocSeparatorFirst(s, c);
    } else {
      SnocSeparatorLater(s, c);
      SplitSnoc(After(s, c).value, c);
    }
  }

  /** Empty pieces drop out, wherever they stand. */
  lemma {:induction false} NonEmptySnocEmpty(parts: seq<string>)
    ensures NonEmpty(parts + [[]]) == NonEmpty(parts)
    decreases |parts|
  {
    if parts == [] {
      assert NonEmpty([[]]) == NonEmpty([]);
    } else {
      assert (parts + [[]])[0] == parts[0];
      assert (parts + [[]])[1..] == parts[1..] + [[]];
      NonEmptySnocEmpty(parts[1..]);
    }
  }

  /** A trailing separator changes no segment. */
  lemma SegmentsSnoc(s: string, c: char)
    ensures Segments(s + [c], c) == Segments(s, c)
  {
    SplitSnoc(s, c);
    NonEmptySnocEmpty(Split(s, c));
  }

  /** `s.split(c)`: the pieces between the separators, empty pieces included. */
  function Split(s: string, c: char): (r: seq<string>)
    ensures |r| >= 1
    ensures forall i :: 0 <= i < |r| ==> c !in r[i]
    decreases |s|
  {
    match After(s, c)
    case None => [s]
    case Some(rest) => [Before(s, c)] + Split(rest, c)
  }

  /** Splitting at a first separator: the text before it, then the pieces of the rest. */
  lemma SplitAtFirst(a: string, b: string, c: char)
    requires c !in a
    ensures Split(a + [c] + b, c) == [a] + Split(b, c)
  {
    var s := a + [c] + b;
    assert s[|a|] == c;
    assert c in s;
    var k := IndexOf(s, c).value;
    assert k == |a| by {
      assert forall j :: 0 <= j < |a| ==> s[j] == a[j];
    }
    assert s[..k] == a && s[k + 1..] == b;
  }

  /** A text without the separator is a single piece. */
  lemma SplitNone(s: string, c: char)
    requires c !in s
    ensures Split(s, c) == [s]
  {
  }

  /** A character absent from both parts is absent from their concatenation. */
  lemma NoCharAppend(a: string, b: string, c: char)
    requires c !in a && c !in b
    ensures c !in a + b
  {
    assert forall i :: 0 <= i < |a + b| ==> (a + b)[i] == if i < |a| then a[i] else b[i - |a|];
  }

  /** `s.split(c).filter(Boolean)`: the non-empty pieces. */
  function Segments(s: string, c: char): (r: seq<string>)
    ensures forall i :: 0 <= i < |r| ==> r[i] != [] && c !in r[i]
  {
    NonEmpty(Split(s, c))
  }

  function NonEmpty(parts: seq<string>): (r: seq<string>)
    ensures forall i :: 0 <= i < |r| ==> r[i] != [] && r[i] in parts
    ensures |r| <= |parts|
  {
    if parts == [] then []
    else if parts[0] == [] then NonEmpty(parts[1..])
    else [parts[0]] + NonEmpty(parts[1..])
  }

  /** `replace(/\/$/, "")`: at most one `/` is removed, and only at the very end. */
  function StripTrailingSlash(s: string): (r: string)
    ensures EndsWith(s, "/") ==> r + "/" == s
    ensures !EndsWith(s, "/") ==> r == s
  {
    if s != [] && s[|s| - 1] == '/' then
      assert s[..|s| - 1] + "/" == s;
      s[..|s| - 1]
    else
      s
  }

  function Join(parts: seq<string>, sep: string): string
  {
    if parts == [] then []
    else if |parts| == 1 then parts[0]
    else parts[0] + sep + Join(parts[1..], sep)
  }

  /** `parts.join("")`. */
  function Concat(parts: seq<string>): (r: string)
    ensures |parts| == 1 ==> r == parts[0]
  {
    if parts == [] then [] else parts[0] + Concat(parts[1..])
  }

  function TrimStart(s: string): (r: string)
    ensures r == [] || !IsSpace(r[0])
    ensures forall i :: 0 <= i < |s| - |r| ==> IsSpace(s[i])
  {
    if s != [] && IsSpace(s[0]) then TrimStart(s[1..]) else s
  }

  function TrimEnd(s: string): (r: string)
    ensures r == [] || !IsSpace(r[|r| - 1])
    ensures forall i :: |r| <= i < |s| ==> IsSpace(s[i])
  {
    if s != [] && IsSpace(s[|s| - 1]) then TrimEnd(s[..|s| - 1]) else s
  }

  /** What `TrimStart` keeps is a suffix of its input. */
  lemma {:induction false} TrimStartSuffix(s: string)
    ensures EndsWith(s, TrimStart(s))
  {
    if s != [] && IsSpace(s[0]) {
      TrimStartSuffix(s[1..]);
      assert s[|s| - |TrimStart(s)|..] == s[1..][|s[1..]| - |TrimStart(s)|..];
    }
  }

  /** A string ends with every suffix it was built from. */
  lemma EndsWithConcat(p: string, t: string)
    ensures EndsWith(p + t, t)
  {
    assert (p + t)[|p|..] == t;
  }

  /** A prefix and the rest after it make the whole string again. */
  lemma PrefixJoin(s: string, p: string)
    requires StartsWith(s, p)
    ensures p + s[|p|..] == s
  {
    assert s == s[..|p|] + s[|p|..];
  }

  /** A string starts with every prefix it was built from. */
  lemma StartsWithConcat(p: string, t: string)
    ensures StartsWith(p + t, p)
  {
    assert (p + t)[..|p|] == p;
  }

  /** What `TrimEnd` keeps is a prefix of its input. */
  lemma {:induction false} TrimEndPrefix(s: string)
    ensures StartsWith(s, TrimEnd(s))
  {
    if s != [] && IsSpace(s[|s| - 1]) {
      TrimEndPrefix(s[..|s| - 1]);
      assert s[..|TrimEnd(s)|] == s[..|s| - 1][..|TrimEnd(s)|];
    }
  }

  /** `s.trim()`: white space removed from both ends. */
  function Trim(s: string): (r: string)
    ensures r == [] || (!IsSpace(r[0]) && !IsSpace(r[|r| - 1]))
  {
    TrimEndPrefix(TrimStart(s));
    TrimEnd(TrimStart(s))
  }

  /** Non-breaking spaces, ideographic spaces and byte order marks count as white space too. */
  lemma TrimUnicodeSpace()
    ensures Trim("\U{A0}\U{3000}") == []
    ensures Trim("\U{FEFF}a\U{2028}") == "a"
  {
    TrimEmptyIffBlank("\U{A0}\U{3000}");
  }

  /** A string is blank when trimming leaves nothing: every character is white space. */
  lemma {:induction false} TrimEmptyIffBlank(s: string)
    ensures Trim(s) == [] <==> forall i :: 0 <= i < |s| ==> IsSpace(s[i])
  {
    TrimStartSuffix(s);
    TrimEndPrefix(TrimStart(s));
    if Trim(s) == [] {
      assert TrimStart(s) == [];
    }
  }

  function DigitChar(d: nat): (c: char)
    requires d < 10
    ensures IsDigit(c) && c as int - '0' as int == d
  {
    ('0' as int + d) as char
  }

  function DigitValue(c: char): nat
    requires IsDigit(c)
  {
    c as int - '0' as int
  }

  predicate AllDigits(s: string)
  {
    forall i :: 0 <= i < |s| ==> IsDigit(s[i])
  }

  /** The value of a string of decimal digits. */
  function DigitsValue(s: string): nat
    requires AllDigits(s)
  {
    if s == [] then 0 else 10 * DigitsValue(s[..|s| - 1]) + DigitValue(s[|s| - 1])
  }

  /** Decimal rendering of a natural number, as a template string prints it. */
  function NatToString(n: nat): (r: string)
    ensures r != [] && AllDigits(r)
  {
    if n < 10 then [DigitChar(n)] else NatToString(n / 10) + [DigitChar(n % 10)]
  }

  function IntToString(n: int): (r: string)
    ensures r != []
    ensures n >= 0 ==> r == NatToString(n)
    ensures n < 0 ==> r == "-" + NatToString(-n)
  {
    if n >= 0 then NatToString(n) else "-" + NatToString(-n)
  }

  function Pow10(k: nat): (r: nat)
    ensures r >= 1
  {
    if k == 0 then 1 else 10 * Pow10(k - 1)
  }

  /** A number below `10^k` has at most `k` digits. */
  lemma {:induction false} NatToStringLength(n: nat, k: nat)
    requires 1 <= k && n < Pow10(k)
    ensures |NatToString(n)| <= k
  {
    if n >= 10 {
      assert 10 * (n / 10) <= n < 10 * Pow10(k - 1);
      NatToStringLength(n / 10, k - 1);
    }
  }

  /** Reading the digits back gives the number: the rendering is injective. */
  lemma {:induction false} NatToStringValue(n: nat)
    ensures DigitsValue(NatToString(n)) == n
  {
    var s := NatToString(n);
    if n >= 10 {
      NatToStringValue(n / 10);
      assert s[..|s| - 1] == NatToString(n / 10);
    }
  }

  lemma NatToStringInjective(m: nat, n: nat)
    requires NatToString(m) == NatToString(n)
    ensures m == n
  {
    NatToStringValue(m);
    NatToStringValue(n);
  }

  /**
   * Two strings built as `p + digits(m) + tail` with a tail that does not
   * start with a digit are equal only when the numbers are equal: this is
   * what keeps per-index storage keys apart.
   */
  lemma {:induction false} NumberedKeysDistinct(p: string, m: nat, n: nat, t1: string, t2: string)
    requires t1 != [] && !IsDigit(t1[0]) && t2 != [] && !IsDigit(t2[0])
    requires p + NatToString(m) + t1 == p + NatToString(n) + t2
    ensures m == n && t1 == t2
  {
    var a, b := NatToString(m), NatToString(n);
    var s1, s2 := p + a + t1, p + b + t2;
    assert a + t1 == s1[|p|..] == s2[|p|..] == b + t2;
    assert a == (a + t1)[..|a|] == (b + t2)[..|b|] == b;
    NatToStringInjective(m, n);
    assert t1 == (a + t1)[|a|..] == (b + t2)[|b|..] == t2;
  }
}
