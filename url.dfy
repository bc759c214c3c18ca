/**
 * A simplified reading of the WHATWG URL parser: enough to tell absolute
 * URLs from relative ones, to read the scheme (`protocol`), the host name and
 * the path, and to resolve a path against an origin.
 */
module Url {

  import opened Wrappers
  import opened Strings

  datatype Url = Url(scheme: string, hostname: string, port: string, pathname: string, search: string, hash: string)
  {
    /** `url.protocol`, e.g. `"https:"`. */
    function Protocol(): string { scheme + ":" }
  }

  predicate IsSchemeChar(c: char) { IsAsciiLetter(c) || IsDigit(c) || c == '+' || c == '-' || c == '.' }

  /** Schemes the URL standard calls special; they always carry a host. */
  predicate IsSpecialScheme(scheme: string)
  {
    scheme == "http" || scheme == "https" || scheme == "ws" || scheme == "wss" || scheme == "ftp"
  }

  /** The longest prefix of `s` none of whose characters is in `stops`. */
  function Until(s: string, stops: set<char>): (r: string)
    ensures StartsWith(s, r)
    ensures forall i :: 0 <= i < |r| ==> r[i] !in stops
    ensures |r| < |s| ==> s[|r|] in stops
  {
    if s == [] || s[0] in stops then [] else [s[0]] + Until(s[1..], stops)
  }

  /** The longest prefix of `s` made of scheme characters. */
  function SchemeChars(s: string): (r: string)
    ensures StartsWith(s, r)
    ensures forall i :: 0 <= i < |r| ==> IsSchemeChar(r[i])
    ensures |r| < |s| ==> !IsSchemeChar(s[|r|])
  {
    if s != [] && IsSchemeChar(s[0]) then [s[0]] + SchemeChars(s[1..]) else []
  }

  /** The scheme of an absolute URL: a letter, scheme characters, then `:`. */
  function SchemeOf(s: string): (r: Option<string>)
    ensures r.Some? ==> |r.value| < |s| && s[..|r.value|] == r.value && s[|r.value|] == ':'
    ensures r.Some? ==> r.value != [] && IsAsciiLetter(r.value[0])
  {
    var name := SchemeChars(s);
    if name != [] && IsAsciiLetter(name[0]) && |name| < |s| && s[|name|] == ':' then Some(name) else None
  }

  /** Splits the part after the authority into path, query (`?…`) and fragment (`#…`). */
  function PathQueryFragment(rest: string): (r: (string, string, string))
    ensures r.0 + r.1 + r.2 == rest
    ensures '?' !in r.0 && '#' !in r.0 && '#' !in r.1
  {
    PathQueryFragmentParts(rest);
    var beforeHash := Until(rest, {'#'});
    var path := Until(beforeHash, {'?'});
    (path, beforeHash[|path|..], rest[|beforeHash|..])
  }

  lemma PathQueryFragmentParts(rest: string)
    ensures var beforeHash := Until(rest, {'#'});
      var path := Until(beforeHash, {'?'});
      && path + beforeHash[|path|..] + rest[|beforeHash|..] == rest
      && '?' !in path && '#' !in path && '#' !in beforeHash[|path|..]
  {
    var beforeHash := Until(rest, {'#'});
    var path := Until(beforeHash, {'?'});
    StopsAbsent(rest, {'#'}, '#');
    StopsAbsent(beforeHash, {'?'}, '?');
    AbsentFromParts(beforeHash, |path|, '#');
    PrefixJoin(beforeHash, path);
    PrefixJoin(rest, beforeHash);
  }

  /** A stop character does not occur in the prefix `Until` returns. */
  lemma StopsAbsent(s: string, stops: set<char>, c: char)
    requires c in stops
    ensures c !in Until(s, stops)
  {
    var r := Until(s, stops);
    forall i | 0 <= i < |r| ensures r[i] != c {
      assert r[i] !in stops;
    }
  }

  /** A character absent from a string is absent from both sides of any split. */
  lemma AbsentFromParts(s: string, k: nat, c: char)
    requires k <= |s| && c !in s
    ensures c !in s[..k] && c !in s[k..]
  {
    forall i | 0 <= i < k ensures s[..k][i] != c {
      assert s[..k][i] == s[i];
    }
    forall i | 0 <= i < |s| - k ensures s[k..][i] != c {
      assert s[k..][i] == s[k + i];
    }
  }

  /** Host name and port of `host[:port]` or `[ipv6][:port]`, with a numeric port. */
  function HostAndPort(hostport: string): (r: Option<(string, string)>)
    ensures r.Some? ==> AllDigits(r.value.1)
    ensures r.Some? && ':' in r.value.0 ==> r.value.0 != [] && r.value.0[0] == '['
  {
    if hostport != [] && hostport[0] == '[' then
      match IndexOf(hostport, ']')
      case None => None
      case Some(k) =>
        var after := hostport[k + 1..];
        if after == [] then Some((hostport[..k + 1], ""))
        else if after[0] == ':' && AllDigits(after[1..]) then Some((hostport[..k + 1], after[1..]))
        else None
    else
      var host := Before(hostport, ':');
      match After(hostport, ':')
      case None => Some((host, ""))
      case Some(port) => if AllDigits(port) then Some((host, port)) else None
  }

  /** Drops user information (`user:pass@`) in front of the host. */
  function HostPort(authority: string): string
  {
    match LastIndexOf(authority, '@')
    case None => authority
    case Some(k) => authority[k + 1..]
  }

  /** `new URL(s)`: `None` where the constructor throws. */
  function Parse(s: string): (r: Option<Url>)
    ensures r.Some? ==> SchemeOf(s).Some? && r.value.scheme == Lower(SchemeOf(s).value)
    ensures r.Some? && IsSpecialScheme(r.value.scheme) ==> r.value.hostname != []
    ensures r.Some? && ':' in r.value.hostname ==> r.value.hostname[0] == '['
  {
    match SchemeOf(s)
    case None => None
    case Some(name) =>
      var scheme := Lower(name);
      var rest := s[|name| + 1..];
      if StartsWith(rest, "//") then
        var authority := Until(rest[2..], {'/', '?', '#'});
        var (path, search, hash) := PathQueryFragment(rest[2 + |authority|..]);
        match HostAndPort(HostPort(authority))
        case None => None
        case Some((host, port)) =>
          if IsSpecialScheme(scheme) && host == [] then None
          else
            var pathname := if IsSpecialScheme(scheme) && path == [] then "/" else path;
            Some(Url(scheme, Lower(host), port, pathname, search, hash))
      else if IsSpecialScheme(scheme) then None
      else
        var (path, search, hash) := PathQueryFragment(rest);
        Some(Url(scheme, "", "", path, search, hash))
  }

  /** `url.protocol` is `"http:"` or `"https:"` after a successful parse; such a URL names a host. */
  predicate IsHttpUrl(s: string): (b: bool)
    ensures b ==> Parse(s).Some? && Parse(s).value.hostname != []
  {
    var u := Parse(s);
    u.Some? && (u.value.scheme == "http" || u.value.scheme == "https")
  }

  /**
   * `new URL(value, origin).toString()` for a relative reference: the
   * reference is joined to the origin with one `/`. Two cases differ from
   * the URL parser: a protocol-relative `//host/x` is joined as a path
   * rather than switching to `host`, and an origin the parser rejects
   * (such as `null`) still gives a string where the constructor throws.
   */
  function Resolve(value: string, origin: string): (r: string)
    ensures StartsWith(r, origin + "/")
  {
    if StartsWith(value, "/") then origin + value else origin + "/" + value
  }

  /** Without a scheme the constructor throws: relative paths are not URLs. */
  lemma PathIsNotAUrl(s: string)
    requires s != [] && (s[0] == '/' || s[0] == '.')
    ensures Parse(s).None?
  {
    assert SchemeChars(s) == [] || !IsAsciiLetter(SchemeChars(s)[0]);
  }
}
