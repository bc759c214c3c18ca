/**
 * `LandingTheme`: the landing palette applies on the home page, on a bare
 * locale and on the blog. `locales` are the configured locales.
 */
module LandingTheme {

  import opened Wrappers
  import opened Strings

  const ThemeClass := "landing-raphael dark"

  /** `isLandingPath`. */
  function IsLandingPath(pathname: Option<string>, locales: seq<string>): bool
  {
    if pathname.None? || pathname.value == [] then false
    else
      var segments := Segments(StripTrailingSlash(pathname.value), '/');
      if segments == [] then true
      else
        var hasLocalePrefix := segments[0] in locales;
        if |segments| == 1 && hasLocalePrefix then true
        else
          var contentSegments := if hasLocalePrefix then segments[1..] else segments;
          if contentSegments == [] then true
          else contentSegments[0] == "posts"
  }

  /** The class names given to `cn`, empty ones left out. */
  function ClassesOf(pathname: Option<string>, locales: seq<string>, className: Option<string>): seq<string>
  {
    var isLanding := IsLandingPath(pathname, locales);
    (if isLanding then [ThemeClass] else [])
      + (if isLanding && className.Some? && className.value != [] then [className.value] else [])
  }

  /** Dropping one trailing `/` changes no segment, since empty segments are dropped anyway. */
  lemma StripChangesNoSegment(p: string)
    ensures Segments(StripTrailingSlash(p), '/') == Segments(p, '/')
  {
    if EndsWith(p, "/") {
      SegmentsSnoc(StripTrailingSlash(p), '/');
    }
  }

  /**
   * A path is a landing path exactly when it has a name and its non-empty
   * segments are none, a locale alone, a locale then `posts`, or `posts`
   * first when `posts` is not itself a locale.
   */
  lemma LandingIff(p: string, locales: seq<string>)
    requires p != []
    ensures var s := Segments(p, '/');
      IsLandingPath(Some(p), locales) <==>
        || s == []
        || (s[0] !in locales && s[0] == "posts")
        || (s[0] in locales && (|s| == 1 || s[1] == "posts"))
  {
    StripChangesNoSegment(p);
    var s := Segments(p, '/');
    if s != [] && s[0] in locales && |s| > 1 {
      assert s[1..][0] == s[1];
    }
  }

  /** A missing or empty path is not a landing path. */
  lemma NoPathIsNotLanding(locales: seq<string>)
    ensures !IsLandingPath(None, locales) && !IsLandingPath(Some(""), locales)
  {
  }

  /** A trailing slash never changes the answer. */
  lemma TrailingSlashIrrelevant(p: string, locales: seq<string>)
    requires p != []
    ensures IsLandingPath(Some(p + "/"), locales) == IsLandingPath(Some(p), locales)
  {
    StripChangesNoSegment(p);
    StripChangesNoSegment(p + "/");
    SegmentsSnoc(p, '/');
    SameSegmentsSameAnswer(p + "/", p, locales);
  }

  /** The answer depends on the segments alone. */
  lemma SameSegmentsSameAnswer(p: string, q: string, locales: seq<string>)
    requires p != [] && q != []
    requires Segments(StripTrailingSlash(p), '/') == Segments(StripTrailingSlash(q), '/')
    ensures IsLandingPath(Some(p), locales) == IsLandingPath(Some(q), locales)
  {
  }

  /** The theme classes, and the caller's class name, are applied only on landing paths. */
  lemma ClassesOnlyOnLanding(pathname: Option<string>, locales: seq<string>, className: Option<string>)
    ensures !IsLandingPath(pathname, locales) ==> ClassesOf(pathname, locales, className) == []
    ensures IsLandingPath(pathname, locales) ==>
      ClassesOf(pathname, locales, className)[0] == "landing-raphael dark"
      && (className.Some? && className.value != [] ==> ClassesOf(pathname, locales, className) == ["landing-raphael dark", className.value])
  {
  }
}
