/**
 * `encodeURIComponent`: every character outside the unreserved set
 * `A-Z a-z 0-9 - _ . ! ~ * ' ( )` is written as the `%XX` escapes of its
 * UTF-8 bytes, with upper-case hexadecimal digits.
 */
module UriEncoding {

  import opened Strings

  predicate IsUnreserved(c: char)
  {
    IsAsciiLetter(c) || IsDigit(c) || c in {'-', '_', '.', '!', '~', '*', '\'', '(', ')'}
  }

  predicate IsUpperHexDigit(c: char) { IsDigit(c) || 'A' <= c <= 'F' }

  function HexDigit(d: nat): (c: char)
    requires d < 16
    ensures IsUpperHexDigit(c)
  {
    if d < 10 then DigitChar(d) else ('A' as int + (d - 10)) as char
  }

  /** `%XX` for one byte. */
  function Escape(b: nat): (r: string)
    requires b < 256
    ensures |r| == 3 && r[0] == '%' && IsUpperHexDigit(r[1]) && IsUpperHexDigit(r[2])
  {
    ['%', HexDigit(b / 16), HexDigit(b % 16)]
  }

  /** The UTF-8 encoding of one Unicode scalar value. */
  function Utf8(c: char): (r: seq<nat>)
    ensures 1 <= |r| <= 4
    ensures forall i :: 0 <= i < |r| ==> r[i] < 256
    ensures (c as int < 0x80) <==> |r| == 1
    ensures |r| == 1 ==> r[0] == c as int
  {
    var n := c as int;
    if n < 0x80 then [n]
    else if n < 0x800 then [0xC0 + n / 0x40, 0x80 + n % 0x40]
    else if n < 0x10000 then [0xE0 + n / 0x1000, 0x80 + (n / 0x40) % 0x40, 0x80 + n % 0x40]
    else [0xF0 + n / 0x40000, 0x80 + (n / 0x1000) % 0x40, 0x80 + (n / 0x40) % 0x40, 0x80 + n % 0x40]
  }

  function EscapeBytes(bytes: seq<nat>): (r: string)
    requires forall i :: 0 <= i < |bytes| ==> bytes[i] < 256
    ensures |r| == 3 * |bytes|
    ensures forall i :: 0 <= i < |r| ==> r[i] == '%' || IsUpperHexDigit(r[i])
  {
    if bytes == [] then [] else Escape(bytes[0]) + EscapeBytes(bytes[1..])
  }

  function EncodeChar(c: char): (r: string)
    ensures IsUnreserved(c) ==> r == [c]
    ensures !IsUnreserved(c) ==> r != [] && r[0] == '%'
  {
    if IsUnreserved(c) then [c] else EscapeBytes(Utf8(c))
  }

  /** A character `encodeURIComponent` can emit. */
  predicate IsEncodedChar(c: char) { IsUnreserved(c) || c == '%' || IsUpperHexDigit(c) }

  function EncodeURIComponent(s: string): (r: string)
    ensures |r| >= |s|
    ensures forall i :: 0 <= i < |r| ==> IsEncodedChar(r[i])
  {
    if s == [] then [] else EncodeChar(s[0]) + EncodeURIComponent(s[1..])
  }

  /** A string of unreserved characters is its own encoding. */
  lemma {:induction false} EncodeUnreservedIsIdentity(s: string)
    requires forall i :: 0 <= i < |s| ==> IsUnreserved(s[i])
    ensures EncodeURIComponent(s) == s
  {
    if s != [] {
      EncodeUnreservedIsIdentity(s[1..]);
    }
  }

  /** The encoding is printable ASCII and holds none of `"`, `;`, `\`, `/` or space. */
  lemma EncodedIsHeaderSafe(s: string)
    ensures forall i :: 0 <= i < |EncodeURIComponent(s)| ==>
      var c := EncodeURIComponent(s)[i];
      0x21 <= c as int <= 0x7E && c != '"' && c != ';' && c != '\\' && c != '/'
  {
  }

  /** Encoding distributes over concatenation. */
  lemma {:induction false} EncodeAppend(a: string, b: string)
    ensures EncodeURIComponent(a + b) == EncodeURIComponent(a) + EncodeURIComponent(b)
  {
    if a == [] {
      assert a + b == b;
    } else {
      assert (a + b)[0] == a[0] && (a + b)[1..] == a[1..] + b;
      EncodeAppend(a[1..], b);
    }
  }
}
