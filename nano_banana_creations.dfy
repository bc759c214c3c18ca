/**
 * The "my creations" gallery of nano-banana-pro: the list it shows (search,
 * then the `maxItems` limit), deleting an entry, and the name a download is
 * offered under.
 */
module NanoBananaCreations {

  import opened Wrappers
  import opened Strings
  import opened NanoBananaUtils

  /** The search matches the lowercased prompt or model against the lowercased, untrimmed term. */
  predicate Matches(c: Creation, term: string)
  {
    Contains(Lower(c.prompt), Lower(term)) || Contains(Lower(c.model), Lower(term))
  }

  /** The entries that match, in their order. */
  function Search(list: seq<Creation>, term: string): (r: seq<Creation>)
    ensures |r| <= |list|
  {
    if list == [] then []
    else if Matches(list[0], term) then [list[0]] + Search(list[1..], term)
    else Search(list[1..], term)
  }

  /** `filtered.slice(0, maxItems)` when `maxItems > 0`, the whole list otherwise. */
  function Limit(list: seq<Creation>, maxItems: Option<int>): (r: seq<Creation>)
    ensures r <= list
    ensures maxItems.Some? && maxItems.value > 0 ==> |r| == if |list| < maxItems.value then |list| else maxItems.value
    ensures (maxItems.None? || maxItems.value <= 0) ==> r == list
  {
    if maxItems.Some? && maxItems.value > 0 && maxItems.value < |list| then list[..maxItems.value] else list
  }

  /** The list the gallery shows: the search applies only to a term that is not blank. */
  function Visible(creations: seq<Creation>, term: string, maxItems: Option<int>): seq<Creation>
  {
    Limit(if Trim(term) != [] then Search(creations, term) else creations, maxItems)
  }

  /** A character the download name keeps: an ASCII letter or digit, or a CJK ideograph U+4E00 to U+9FA5. */
  predicate IsNameChar(c: char)
  {
    IsAsciiLetter(c) || IsDigit(c) || ('\U{4E00}' <= c <= '\U{9FA5}')
  }

  /** `replace(/[^a-zA-Z0-9一-龥]/g, '_')`: every other character becomes `_`. */
  function Underscored(s: string): (r: string)
    ensures |r| == |s|
    ensures forall i :: 0 <= i < |s| ==> r[i] == if IsNameChar(s[i]) then s[i] else '_'
  {
    if s == [] then [] else [if IsNameChar(s[0]) then s[0] else '_'] + Underscored(s[1..])
  }

  /** The download name: the first 30 characters of the prompt, cleaned, then `_{id}.png`. */
  function DownloadFilename(c: Creation): string
  {
    Underscored(c.prompt[..if |c.prompt| < 30 then |c.prompt| else 30]) + "_" + c.id + ".png"
  }

  /** The gallery component. */
  class Gallery {
    /** The `creations` prop, when one is given. */
    const given: Option<seq<Creation>>
    const maxItems: Option<int>
    const storage: LocalStorage
    const codec: Codec
    var creations: seq<Creation>
    var searchTerm: string

    constructor (given: Option<seq<Creation>>, maxItems: Option<int>, storage: LocalStorage, codec: Codec)
      ensures this.given == given && this.maxItems == maxItems && this.storage == storage && this.codec == codec
      ensures creations == given.GetOr([]) && searchTerm == ""
    {
      this.given, this.maxItems, this.storage, this.codec := given, maxItems, storage, codec;
      creations := given.GetOr([]);
      searchTerm := "";
    }

    /** The list shown. */
    function Shown(): seq<Creation>
      reads this
    {
      Visible(creations, searchTerm, maxItems)
    }

    /** The mount effect: without a prop the list is read from storage. */
    method Load()
      modifies this
      ensures given.None? ==> creations == MyCreations(storage.inBrowser, storage.items, codec)
      ensures given.Some? ==> creations == old(creations)
      ensures searchTerm == old(searchTerm)
    {
      if given.None? {
        creations := MyCreations(storage.inBrowser, storage.items, codec);
      }
    }

    method SetSearchTerm(term: string)
      modifies this
      ensures searchTerm == term && creations == old(creations)
    {
      searchTerm := term;
    }

    /** Deletes the entries with that id from storage and from the list held. */
    method HandleDelete(id: string, writeFails: bool)
      modifies this, storage
      ensures creations == WithoutId(old(creations), id) && searchTerm == old(searchTerm)
      ensures storage.items == ItemsAfterDelete(storage.inBrowser, old(storage.items), codec, id, writeFails)
    {
      DeleteCreation(storage, id, codec, writeFails);
      creations := WithoutId(creations, id);
    }

    /** The link the download starts, at time `now`. */
    function HandleDownload(c: Creation, now: nat): Option<Link>
      reads storage
    {
      DownloadImage(storage.inBrowser, c.url, Some(DownloadFilename(c)), now)
    }
  }

  /** A blank term (empty or whitespace) shows every creation, up to the limit. */
  lemma BlankShowsAll(creations: seq<Creation>, term: string, maxItems: Option<int>)
    requires Trim(term) == []
    ensures Visible(creations, term, maxItems) == Limit(creations, maxItems)
    ensures maxItems.None? ==> Visible(creations, term, maxItems) == creations
  {
  }

  /** An entry is found exactly when it is listed and matches. */
  lemma {:induction false} SearchMembers(list: seq<Creation>, term: string)
    ensures forall c :: c in Search(list, term) <==> c in list && Matches(c, term)
  {
    if list != [] {
      SearchMembers(list[1..], term);
      assert list == [list[0]] + list[1..];
    }
  }

  /** The search keeps the order of the list: it distributes over concatenation. */
  lemma {:induction false} SearchAppend(a: seq<Creation>, b: seq<Creation>, term: string)
    ensures Search(a + b, term) == Search(a, term) + Search(b, term)
  {
    if a == [] {
      assert a + b == b;
    } else {
      assert (a + b)[0] == a[0] && (a + b)[1..] == a[1..] + b;
      SearchAppend(a[1..], b, term);
    }
  }

  /**
   * With a term that is not blank the gallery shows a prefix of the matching
   * entries, at most `maxItems` of them when `maxItems > 0`, and nothing
   * that does not match.
   */
  lemma SearchShown(creations: seq<Creation>, term: string, maxItems: Option<int>)
    requires Trim(term) != []
    ensures Visible(creations, term, maxItems) <= Search(creations, term)
    ensures maxItems.Some? && maxItems.value > 0 ==> |Visible(creations, term, maxItems)| <= maxItems.value
    ensures forall c :: c in Visible(creations, term, maxItems) ==> c in creations && Matches(c, term)
  {
    SearchMembers(creations, term);
    var v := Visible(creations, term, maxItems);
    forall c | c in v
      ensures c in Search(creations, term)
    {
      var i :| 0 <= i < |v| && v[i] == c;
      assert Search(creations, term)[i] == c;
    }
  }

  /** The term is lowercased but not trimmed: a space that the entry lacks makes it miss. */
  lemma UntrimmedTermMisses(c: Creation)
    requires c.prompt == "cat" && c.model == "pro"
    ensures Trim(" cat") != [] && Visible([c], " cat", None) == []
  {
    assert " cat"[1] == 'c';
    assert !IsSpace('c');
    NotContainsFirst(Lower("cat"), Lower(" cat"));
    NotContainsFirst(Lower("pro"), Lower(" cat"));
    assert Lower(" cat")[0] == ' ';
    assert Search([c], " cat") == [];
  }

  /** After a delete no entry with that id can be shown, whatever the term and limit. */
  lemma DeletedNotShown(creations: seq<Creation>, id: string, term: string, maxItems: Option<int>)
    ensures forall c :: c in Visible(WithoutId(creations, id), term, maxItems) ==> c.id != id && c in creations
  {
    var rest := WithoutId(creations, id);
    WithoutIdMembers(creations, id);
    SearchMembers(rest, term);
    var f := if Trim(term) != [] then Search(rest, term) else rest;
    forall c | c in Visible(rest, term, maxItems)
      ensures c in f
    {
      var v := Visible(rest, term, maxItems);
      var i :| 0 <= i < |v| && v[i] == c;
      assert f[i] == c;
    }
  }

  /**
   * The download name is the prompt's first 30 characters (fewer for a
   * shorter prompt) with every character outside letters, digits and CJK
   * ideographs turned into `_`, followed by `_{id}.png`.
   */
  lemma DownloadFilenameShape(c: Creation)
    ensures var n := if |c.prompt| < 30 then |c.prompt| else 30;
      var name := DownloadFilename(c);
      && |name| == n + 1 + |c.id| + 4
      && EndsWith(name, "_" + c.id + ".png")
      && (forall i :: 0 <= i < n ==> name[i] == if IsNameChar(c.prompt[i]) then c.prompt[i] else '_')
      && (forall i :: 0 <= i < n ==> IsNameChar(name[i]) || name[i] == '_')
  {
    var n := if |c.prompt| < 30 then |c.prompt| else 30;
    var p := Underscored(c.prompt[..n]);
    var name := DownloadFilename(c);
    assert name == p + ("_" + c.id + ".png");
    assert name[|p|..] == "_" + c.id + ".png";
    forall i | 0 <= i < n
      ensures name[i] == if IsNameChar(c.prompt[i]) then c.prompt[i] else '_'
    {
      assert name[i] == p[i];
      assert c.prompt[..n][i] == c.prompt[i];
    }
  }
}
