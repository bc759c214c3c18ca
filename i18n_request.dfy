/**
 * The request configuration of the translations: the locale asked for is
 * normalised in three steps, then its base messages are merged with the
 * page namespaces that load. When the base messages do not load, the
 * English messages are used instead. `locales` and `defaultLocale` are the
 * routing settings; `load` says what importing each message file gives.
 */
module I18nRequest {

  import opened Wrappers
  import opened Strings

  const PageNamespaces := ["landing", "pricing", "showcase", "font-recognizer", "image-flip-generator", "blog"]

  /** A message file: keys to (opaque) values. */
  type Messages = map<string, string>

  datatype RequestConfig = RequestConfig(locale: string, messages: Messages)

  /** The locale after each of the three checks. */
  function NormalizeLocale(requested: Option<string>, locales: seq<string>, defaultLocale: string): string
  {
    var l1 := if requested.None? || requested.value == [] || requested.value !in locales then defaultLocale else requested.value;
    var l2 := if l1 == "zh-CN" then "zh" else l1;
    if l2 !in locales then "en" else l2
  }

  /** The normalisation as the handler writes it, reassigning `locale`. */
  method ResolveLocale(requested: Option<string>, locales: seq<string>, defaultLocale: string) returns (locale: string)
    ensures locale == NormalizeLocale(requested, locales, defaultLocale)
  {
    locale := if requested.Some? then requested.value else "";
    if locale == [] || locale !in locales {
      locale := defaultLocale;
    }
    if locale in ["zh-CN"] {
      locale := "zh";
    }
    if locale !in locales {
      locale := "en";
    }
  }

  /**
   * The locale is always a configured one or `en`; a configured, non-empty
   * locale other than `zh-CN` is kept, `zh-CN` becomes `zh` (or `en` when `zh` is
   * not configured), and a missing, empty or unknown one gives the default
   * locale, normalised the same way.
   */
  lemma NormalizeLocaleCases(requested: Option<string>, locales: seq<string>, defaultLocale: string)
    ensures var r := NormalizeLocale(requested, locales, defaultLocale);
      && (r in locales || r == "en")
      && r != "zh-CN"
      && (requested.Some? && requested.value != [] && requested.value in locales && requested.value != "zh-CN" ==> r == requested.value)
      && (requested == Some("zh-CN") && "zh-CN" in locales ==> r == (if "zh" in locales then "zh" else "en"))
      && (requested.None? || requested.value == [] || requested.value !in locales ==>
            r == NormalizeLocale(Some(defaultLocale), locales, defaultLocale))
  {
  }

  function BasePath(locale: string): string
  {
    "./messages/" + Lower(locale) + ".json"
  }

  function PagePath(ns: string, locale: string): string
  {
    "./pages/" + ns + "/" + Lower(locale) + ".json"
  }

  /** What importing each page namespace gave, in order (`Promise.allSettled`). */
  function PageResults(locale: string, load: string -> Option<Messages>): (r: seq<Option<Messages>>)
    ensures |r| == |PageNamespaces|
    ensures forall i :: 0 <= i < |r| ==> r[i] == load(PagePath(PageNamespaces[i], locale))
  {
    seq(|PageNamespaces|, i requires 0 <= i < |PageNamespaces| => load(PagePath(PageNamespaces[i], locale)))
  }

  /** The `reduce`: each fulfilled namespace is spread over what came before, a rejected one is skipped. */
  function MergePages(results: seq<Option<Messages>>): Messages
  {
    if results == [] then map[]
    else
      var acc := MergePages(results[..|results| - 1]);
      var last := results[|results| - 1];
      if last.Some? then acc + last.value else acc
  }

  /** `{ ...a, ...b, ... }` over files that all loaded. */
  function Spread(files: seq<Messages>): Messages
  {
    if files == [] then map[] else Spread(files[..|files| - 1]) + files[|files| - 1]
  }

  /** The files the fallback imports: the English base messages, then each page namespace in English. */
  function FallbackPaths(): (r: seq<string>)
    ensures |r| == |PageNamespaces| + 1
    ensures r[0] == BasePath("en")
    ensures forall i :: 0 <= i < |PageNamespaces| ==> r[i + 1] == PagePath(PageNamespaces[i], "en")
  {
    [BasePath("en")] + seq(|PageNamespaces|, i requires 0 <= i < |PageNamespaces| => PagePath(PageNamespaces[i], "en"))
  }

  /** The English fallback of the `catch`: each of its imports must load, or the request fails. */
  function Fallback(load: string -> Option<Messages>): Result<RequestConfig>
  {
    var paths := FallbackPaths();
    if forall i :: 0 <= i < |paths| ==> load(paths[i]).Some? then
      Ok(RequestConfig("en", Spread(seq(|paths|, i requires 0 <= i < |paths| => load(paths[i]).value))))
    else Err("message import failed")
  }

  /** The configuration: the base messages of the locale, then the merged page namespaces over them. */
  function GetRequestConfig(requested: Option<string>, locales: seq<string>, defaultLocale: string,
                            load: string -> Option<Messages>): Result<RequestConfig>
  {
    var locale := NormalizeLocale(requested, locales, defaultLocale);
    match load(BasePath(locale))
    case Some(base) => Ok(RequestConfig(locale, base + MergePages(PageResults(locale, load))))
    case None => Fallback(load)
  }

  /** `k` comes from `results[i]` and no later fulfilled namespace has it. */
  predicate LastWith(results: seq<Option<Messages>>, k: string, i: nat)
  {
    && i < |results| && results[i].Some? && k in results[i].value
    && forall j :: i < j < |results| ==> results[j].None? || k !in results[j].value
  }

  /** A key is merged exactly when some fulfilled namespace has it. */
  lemma {:induction false} MergePagesKeys(results: seq<Option<Messages>>, k: string)
    ensures k in MergePages(results) <==> exists i :: 0 <= i < |results| && results[i].Some? && k in results[i].value
    decreases |results|
  {
    if results != [] {
      var n := |results| - 1;
      var prev := results[..n];
      MergePagesKeys(prev, k);
      if exists i :: 0 <= i < |results| && results[i].Some? && k in results[i].value {
        var i :| 0 <= i < |results| && results[i].Some? && k in results[i].value;
        if i < n {
          assert prev[i] == results[i];
        }
      }
      if exists i :: 0 <= i < n && prev[i].Some? && k in prev[i].value {
        var i :| 0 <= i < n && prev[i].Some? && k in prev[i].value;
        assert results[i] == prev[i];
      }
    }
  }

  /**
   * A merged key has the value of the last fulfilled namespace having it:
   * later namespaces override earlier ones.
   */
  lemma {:induction false} MergePagesLastWins(results: seq<Option<Messages>>, k: string, i: nat)
    requires LastWith(results, k, i)
    ensures k in MergePages(results) && MergePages(results)[k] == results[i].value[k]
    decreases |results|
  {
    var n := |results| - 1;
    if i < n {
      var prev := results[..n];
      assert LastWith(prev, k, i) by {
        assert prev[i] == results[i];
        forall j | i < j < n
          ensures prev[j].None? || k !in prev[j].value
        {
          assert prev[j] == results[j];
        }
      }
      MergePagesLastWins(prev, k, i);
    }
  }

  /** Without rejected imports the merge is the plain spread of the files, in order. */
  lemma {:induction false} MergeAllFulfilled(results: seq<Option<Messages>>)
    requires forall i :: 0 <= i < |results| ==> results[i].Some?
    ensures MergePages(results) == Spread(seq(|results|, i requires 0 <= i < |results| => results[i].value))
    decreases |results|
  {
    if results != [] {
      var n := |results| - 1;
      MergeAllFulfilled(results[..n]);
      var files := seq(|results|, i requires 0 <= i < |results| => results[i].value);
      assert files[..n] == seq(n, i requires 0 <= i < n => results[..n][i].value);
    }
  }

  /**
   * When the locale's base messages load, the locale is kept, and every
   * key of a loaded page namespace takes the value of the last namespace
   * having it, over the base messages; other keys are the base messages'.
   */
  lemma MessagesOverride(requested: Option<string>, locales: seq<string>, defaultLocale: string,
                         load: string -> Option<Messages>, k: string)
    requires load(BasePath(NormalizeLocale(requested, locales, defaultLocale))).Some?
    ensures var locale := NormalizeLocale(requested, locales, defaultLocale);
      var base := load(BasePath(locale)).value;
      var results := PageResults(locale, load);
      var c := GetRequestConfig(requested, locales, defaultLocale, load);
      && c.Ok? && c.value.locale == locale
      && (forall i: nat :: LastWith(results, k, i) ==> k in c.value.messages && c.value.messages[k] == results[i].value[k])
      && ((forall i :: 0 <= i < |results| ==> results[i].None? || k !in results[i].value) ==>
            (k in c.value.messages <==> k in base) && (k in base ==> c.value.messages[k] == base[k]))
  {
    var locale := NormalizeLocale(requested, locales, defaultLocale);
    var results := PageResults(locale, load);
    MergePagesKeys(results, k);
    forall i: nat | LastWith(results, k, i)
      ensures k in MergePages(results) && MergePages(results)[k] == results[i].value[k]
    {
      MergePagesLastWins(results, k, i);
    }
  }

  /**
   * When the base messages do not load, the locale is `en`, with the
   * messages the normal path gives for `en`.
   */
  lemma FallbackIsEnglish(requested: Option<string>, locales: seq<string>, defaultLocale: string,
                          load: string -> Option<Messages>)
    requires load(BasePath(NormalizeLocale(requested, locales, defaultLocale))).None?
    ensures var c := GetRequestConfig(requested, locales, defaultLocale, load);
      && (c.Ok? ==> c.value.locale == "en")
      && (c.Ok? <==> load(BasePath("en")).Some? && forall i :: 0 <= i < |PageNamespaces| ==> load(PagePath(PageNamespaces[i], "en")).Some?)
      && (c.Ok? ==> c.value.messages == load(BasePath("en")).value + MergePages(PageResults("en", load)))
  {
    FallbackLoads(load);
    if Fallback(load).Ok? {
      FallbackMessages(load);
    }
  }

  lemma FallbackLoads(load: string -> Option<Messages>)
    ensures Fallback(load).Ok? <==>
      load(BasePath("en")).Some? && forall i :: 0 <= i < |PageNamespaces| ==> load(PagePath(PageNamespaces[i], "en")).Some?
  {
    var paths := FallbackPaths();
    if !(forall i :: 0 <= i < |paths| ==> load(paths[i]).Some?) {
      var i :| 0 <= i < |paths| && load(paths[i]).None?;
      if i > 0 {
        assert load(PagePath(PageNamespaces[i - 1], "en")).None?;
      }
    }
  }

  lemma FallbackMessages(load: string -> Option<Messages>)
    requires Fallback(load).Ok?
    ensures Fallback(load).value.messages == load(BasePath("en")).value + MergePages(PageResults("en", load))
  {
    var paths := FallbackPaths();
    var results := PageResults("en", load);
    var files := seq(|paths|, i requires 0 <= i < |paths| => load(paths[i]).value);
    forall i | 0 <= i < |results|
      ensures results[i].Some?
    {
      assert load(paths[i + 1]).Some?;
    }
    MergeAllFulfilled(results);
    var pages := seq(|results|, i requires 0 <= i < |results| => results[i].value);
    SpreadCons(files[0], pages);
    assert files == [files[0]] + pages;
  }

  /** Spreading a first file then the rest is laying the spread of the rest over it. */
  lemma {:induction false} SpreadCons(first: Messages, rest: seq<Messages>)
    ensures Spread([first] + rest) == first + Spread(rest)
    decreases |rest|
  {
    var all := [first] + rest;
    if rest == [] {
      assert all[..0] == [];
    } else {
      var n := |rest| - 1;
      assert all[..n + 1] == [first] + rest[..n];
      assert all[n + 1] == rest[n];
      SpreadCons(first, rest[..n]);
      MapUnionAssoc(first, Spread(rest[..n]), rest[n]);
    }
  }

  lemma MapUnionAssoc(a: Messages, b: Messages, c: Messages)
    ensures (a + b) + c == a + (b + c)
  {
  }
}
