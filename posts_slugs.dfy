/**
 * `GET /api/posts/slugs`: the slugs of a locale's posts, for prefetching.
 * The page size comes from the `limit` parameter, falling back to 50; any
 * failure answers an empty list.
 */
module PostsSlugs {

  import opened Wrappers
  import opened Strings
  import opened Js

  const DefaultLocale := "en"
  const DefaultLimit := 50

  /** The query parameters `locale` and `limit`; `None` when absent. */
  datatype Query = Query(locale: Option<string>, limit: Option<string>)

  /** A post as the model returns it; its `slug` may be null. */
  datatype Post = Post(slug: Option<string>)

  /** What `getPostsByLocale(locale, page, limit)` gave: a throw, or a result that may be null. */
  datatype Posts = QueryThrew | Returned(posts: Option<seq<Post>>)

  /** `Number.isFinite(limit) && limit > 0 ? limit : 50`, where `limit` is the parsed parameter or 50. */
  function LimitOf(limit: Option<string>): (r: nat)
    ensures r > 0
  {
    var parsed := if limit.Some? && limit.value != [] then ParseInt(limit.value, Some(10)) else Int(DefaultLimit);
    if parsed.Int? && parsed.n > 0 then parsed.n else DefaultLimit
  }

  /** `.map((post) => post.slug).filter(Boolean)`. */
  function SlugsOf(posts: seq<Post>): (r: seq<string>)
    ensures |r| <= |posts|
    ensures forall k :: 0 <= k < |r| ==> r[k] != []
  {
    if posts == [] then []
    else
      var rest := SlugsOf(posts[1..]);
      if posts[0].slug.Some? && posts[0].slug.value != [] then [posts[0].slug.value] + rest else rest
  }

  /** The route; `fetch` is the posts query. The reply is always status 200. */
  function Get(q: Query, fetch: (string, nat, nat) -> Posts): (r: seq<string>)
  {
    match fetch(OrElse(q.locale, DefaultLocale), 1, LimitOf(q.limit))
    case QueryThrew => []
    case Returned(posts) => SlugsOf(posts.GetOr([]))
  }

  /**
   * An absent or empty `limit`, one that does not parse, and one that is not
   * positive all give 50; a positive decimal limit is used as it is.
   */
  lemma LimitCases(limit: Option<string>, n: nat)
    ensures limit.None? || limit == Some("") ==> LimitOf(limit) == 50
    ensures limit.Some? && limit.value != [] && ParseInt(limit.value, Some(10)).NaN? ==> LimitOf(limit) == 50
    ensures limit.Some? && limit.value != [] && ParseInt(limit.value, Some(10)).Int? && ParseInt(limit.value, Some(10)).n <= 0 ==>
      LimitOf(limit) == 50
    ensures n > 0 ==> LimitOf(Some(NatToString(n))) == n
    ensures LimitOf(Some("abc")) == 50
  {
    ParseIntOfNatToString(n, Some(10));
    ParseIntOfNonDigitStart("abc", Some(10));
  }

  /** Filtering works entry by entry, so the slugs keep the posts' order. */
  lemma {:induction false} SlugsOfAppend(a: seq<Post>, b: seq<Post>)
    ensures SlugsOf(a + b) == SlugsOf(a) + SlugsOf(b)
    decreases |a|
  {
    if a != [] {
      assert (a + b)[0] == a[0];
      assert (a + b)[1..] == a[1..] + b;
      SlugsOfAppend(a[1..], b);
    } else {
      assert a + b == b;
    }
  }

  /** A string is listed exactly when it is the non-empty slug of some post. */
  lemma {:induction false} SlugsOfMembers(posts: seq<Post>, s: string)
    ensures s in SlugsOf(posts) <==> s != [] && exists i :: 0 <= i < |posts| && posts[i].slug == Some(s)
    decreases |posts|
  {
    if posts != [] {
      SlugsOfMembers(posts[1..], s);
      if s != [] && (exists i :: 0 <= i < |posts| && posts[i].slug == Some(s)) {
        var i :| 0 <= i < |posts| && posts[i].slug == Some(s);
        if i > 0 {
          assert posts[1..][i - 1].slug == Some(s);
        }
      }
      if exists i :: 0 <= i < |posts[1..]| && posts[1..][i].slug == Some(s) {
        var i :| 0 <= i < |posts[1..]| && posts[1..][i].slug == Some(s);
        assert posts[i + 1].slug == Some(s);
      }
    }
  }

  /**
   * The query asks page 1 of the locale (`en` when absent or empty) with
   * the resolved limit; a throw or a null result yields no slugs, and
   * otherwise the posts' slugs are returned.
   */
  lemma GetAnswers(q: Query, fetch: (string, nat, nat) -> Posts)
    ensures var answer := fetch(if q.locale.Some? && q.locale.value != [] then q.locale.value else "en", 1, LimitOf(q.limit));
      && (answer.QueryThrew? || answer.posts.None? ==> Get(q, fetch) == [])
      && (answer.Returned? && answer.posts.Some? ==>
            forall s :: s in Get(q, fetch) <==> s != [] && exists i :: 0 <= i < |answer.posts.value| && answer.posts.value[i].slug == Some(s))
  {
    var answer := fetch(OrElse(q.locale, DefaultLocale), 1, LimitOf(q.limit));
    if answer.Returned? && answer.posts.Some? {
      forall s {
        SlugsOfMembers(answer.posts.value, s);
      }
    }
  }
}
