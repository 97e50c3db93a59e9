/**
 * `update_tickers_json.py`: rebuild the ticker index from the pages in the
 * tickers directory, one record per `<symbol>.html` page that can be read,
 * with the price found in the page text, sorted by symbol.
 */
module TickersJson {
  import opened Wrappers
  import opened Seqs
  import opened Text
  import opened Listings

  const HtmlSuffix: string := ".html"

  /** `filename[:-5]` for a name that `endswith(".html")`. */
  function SymbolOfFilename(name: string): (symbol: Option<string>)
    ensures symbol.Some? <==> EndsWith(name, HtmlSuffix)
    ensures symbol.Some? ==> symbol.value + HtmlSuffix == name
  {
    if EndsWith(name, HtmlSuffix) then Some(name[..|name| - 5]) else None
  }

  /** The page `update_ticker_files.py` writes for `symbol` is named `symbol + ".html"`; the symbol comes back. */
  lemma FilenameRoundTrip(symbol: string)
    ensures SymbolOfFilename(symbol + HtmlSuffix) == Some(symbol)
  {
    assert (symbol + HtmlSuffix)[|symbol + HtmlSuffix| - 5..] == HtmlSuffix;
    assert (symbol + HtmlSuffix)[..|symbol|] == symbol;
  }

  // ---------------------------------------------------------------------
  // The two price patterns

  /** The characters of `[\d.]`. */
  predicate IsPriceChar(c: char) {
    ('0' <= c <= '9') || c == '.'
  }

  predicate AllPriceChars(s: string) {
    forall k :: 0 <= k < |s| ==> IsPriceChar(s[k])
  }

  /** The length of the longest run of `[\d.]` in `s` starting at `i`. */
  function RunLength(s: string, i: nat): (n: nat)
    requires i <= |s|
    ensures i + n <= |s|
    ensures AllPriceChars(s[i..i + n])
    ensures i + n == |s| || !IsPriceChar(s[i + n])
    decreases |s| - i
  {
    if i < |s| && IsPriceChar(s[i]) then
      var n := RunLength(s, i + 1);
      assert s[i..i + 1 + n] == [s[i]] + s[i + 1..i + 1 + n];
      1 + n
    else 0
  }

  /** A pattern `prefix([\d.]+)suffix` with literal `prefix` and `suffix`. */
  datatype Pattern = Pattern(prefix: string, suffix: string)

  /** `<div class="price">Price: \$([\d.]+)`, the format the pages are written in now. */
  const NewFormat: Pattern := Pattern("<div class=\"price\">Price: $", "")

  /** `<p>Price: \$([\d.]+)</p>`, the older format. */
  const OldFormat: Pattern := Pattern("<p>Price: $", "</p>")

  /** Where the group would begin for a match at `i`. */
  function GroupStart(pat: Pattern, i: nat): nat {
    i + |pat.prefix|
  }

  /**
   * Regular-expression semantics: the pattern matches at `i` with a group
   * of length `n` (the prefix at `i`, then `n >= 1` characters of `[\d.]`,
   * then the suffix).
   */
  predicate MatchesWith(s: string, pat: Pattern, i: nat, n: nat) {
    GroupStart(pat, i) + n <= |s|
    && s[i..GroupStart(pat, i)] == pat.prefix
    && n >= 1
    && AllPriceChars(s[GroupStart(pat, i)..GroupStart(pat, i) + n])
    && StartsWith(s[GroupStart(pat, i) + n..], pat.suffix)
  }

  /** The match the search looks for at `i`: prefix, the whole run of `[\d.]` (at least one), then suffix. */
  predicate MatchesAt(s: string, pat: Pattern, i: nat) {
    GroupStart(pat, i) <= |s|
    && s[i..GroupStart(pat, i)] == pat.prefix
    && RunLength(s, GroupStart(pat, i)) >= 1
    && StartsWith(s[GroupStart(pat, i) + RunLength(s, GroupStart(pat, i))..], pat.suffix)
  }

  /**
   * For both patterns the greedy group is the whole run: whenever the
   * regular expression matches at `i`, `MatchesAt` holds and no group is
   * longer than the run; and `MatchesAt` is a regular-expression match with
   * the run as its group. (The suffix is empty or begins with `<`, which
   * no shorter group could be followed by.)
   */
  lemma GreedyGroupIsRun(s: string, pat: Pattern, i: nat, n: nat)
    requires pat == NewFormat || pat == OldFormat
    ensures MatchesWith(s, pat, i, n) ==> MatchesAt(s, pat, i) && n <= RunLength(s, GroupStart(pat, i))
    ensures MatchesAt(s, pat, i) ==> MatchesWith(s, pat, i, RunLength(s, GroupStart(pat, i)))
  {
    var g := GroupStart(pat, i);
    if MatchesWith(s, pat, i, n) {
      RunCoversPriceChars(s, g, n);
      var r := RunLength(s, g);
      if pat == OldFormat {
        assert s[g + n..][0] == s[g + n] == '<';
        assert n == r;
      } else {
        assert pat.suffix == [];
      }
    }
  }

  /** A run of `[\d.]` of length `n` at `i` is no longer than the longest one there. */
  lemma {:induction false} RunCoversPriceChars(s: string, i: nat, n: nat)
    requires i + n <= |s|
    requires AllPriceChars(s[i..i + n])
    ensures n <= RunLength(s, i)
    decreases n
  {
    if n > 0 {
      assert IsPriceChar(s[i..i + n][0]);
      assert s[i + 1..i + n] == s[i..i + n][1..];
      RunCoversPriceChars(s, i + 1, n - 1);
    }
  }

  /** `re.search`: the leftmost position at or after `from` where the pattern matches. */
  function Search(s: string, pat: Pattern, from: nat): (r: Option<nat>)
    ensures r.Some? ==> from <= r.value <= |s| && MatchesAt(s, pat, r.value)
    ensures r.Some? ==> forall j :: from <= j < r.value ==> !MatchesAt(s, pat, j)
    ensures r.None? ==> forall j :: from <= j <= |s| ==> !MatchesAt(s, pat, j)
    decreases |s| + 1 - from
  {
    if from > |s| then None
    else if MatchesAt(s, pat, from) then Some(from)
    else Search(s, pat, from + 1)
  }

  /** The pattern matches at `i` and at no earlier position. */
  predicate IsLeftmostMatch(s: string, pat: Pattern, i: nat) {
    i <= |s| && MatchesAt(s, pat, i) && forall j :: 0 <= j < i ==> !MatchesAt(s, pat, j)
  }

  /** The group of a match at `i`: the whole run of `[\d.]` after the prefix. */
  function GroupAt(s: string, pat: Pattern, i: nat): string
    requires GroupStart(pat, i) <= |s|
  {
    s[GroupStart(pat, i)..GroupStart(pat, i) + RunLength(s, GroupStart(pat, i))]
  }

  /** `re.search(pattern, content).group(1)`, or `None` when there is no match. */
  function Find(content: string, pat: Pattern): (group: Option<string>)
    ensures group.Some? ==> group.value != [] && AllPriceChars(group.value)
    ensures group.None? <==> forall j :: 0 <= j <= |content| ==> !MatchesAt(content, pat, j)
    ensures group.Some? ==> exists i :: IsLeftmostMatch(content, pat, i) && group.value == GroupAt(content, pat, i)
  {
    match Search(content, pat, 0)
    case None => None
    case Some(i) => Some(GroupAt(content, pat, i))
  }

  /** Lines 31-41: the new format first, then the old one, else `"N/A"`. */
  function ExtractPrice(content: string): (price: string)
    ensures price == "N/A" <==> Find(content, NewFormat).None? && Find(content, OldFormat).None?
    ensures price != "N/A" ==> price != [] && AllPriceChars(price)
  {
    var current := Find(content, NewFormat);
    var older := Find(content, OldFormat);
    if current.Some? then
      assert current.value[0] != 'N';
      current.value
    else if older.Some? then
      assert older.value[0] != 'N';
      older.value
    else "N/A"
  }

  /** The new format takes priority: when it matches, the old one is not consulted. */
  lemma NewFormatWins(content: string)
    requires Find(content, NewFormat).Some?
    ensures ExtractPrice(content) == Find(content, NewFormat).value
  {
  }

  /** The old format is used only when the new one does not match anywhere. */
  lemma OldFormatFallback(content: string)
    requires forall j :: 0 <= j <= |content| ==> !MatchesAt(content, NewFormat, j)
    ensures ExtractPrice(content) == Find(content, OldFormat).GetOr("N/A")
  {
  }

  /**
   * A page holding the price line as `update_ticker_files.py` renders it,
   * `<div class="price">Price: $<digits></div>`, gives those digits back,
   * whatever text comes after it and whatever text comes before it, as long
   * as the pattern's literal text does not begin anywhere in that leading
   * text (the written pages' doctype, title and heading do not hold it).
   */
  lemma RenderedPriceRoundTrip(before: string, digits: string, after: string)
    requires forall j :: 0 <= j < |before| ==> !StartsWith((before + NewFormat.prefix)[j..], NewFormat.prefix)
    requires digits != [] && AllPriceChars(digits)
    ensures ExtractPrice(before + NewFormat.prefix + digits + "</div>" + after) == digits
  {
    var head := before + NewFormat.prefix;
    var tail := digits + ("</div>" + after);
    var s := head + tail;
    assert s == before + NewFormat.prefix + digits + "</div>" + after;
    var p := |before|;
    var g := GroupStart(NewFormat, p);
    assert g == |head|;
    assert s[p..g] == NewFormat.prefix;
    assert s[g..g + |digits|] == digits;
    assert s[g + |digits|] == '<';
    MatchAfter(s, NewFormat, p, |digits|);
    NoMatchBefore(before, NewFormat, tail);
    SearchFindsLeftmost(s, NewFormat, 0, p);
    NewFormatWins(s);
  }

  /** Prefix, then `n` characters of `[\d.]`, then one that is not: with no suffix, a match whose group is those `n`. */
  lemma MatchAfter(s: string, pat: Pattern, i: nat, n: nat)
    requires pat.suffix == []
    requires GroupStart(pat, i) + n < |s| && s[i..GroupStart(pat, i)] == pat.prefix
    requires n >= 1 && AllPriceChars(s[GroupStart(pat, i)..GroupStart(pat, i) + n])
    requires !IsPriceChar(s[GroupStart(pat, i) + n])
    ensures MatchesAt(s, pat, i) && GroupAt(s, pat, i) == s[GroupStart(pat, i)..GroupStart(pat, i) + n]
  {
    var g := GroupStart(pat, i);
    RunCoversPriceChars(s, g, n);
  }

  /** The pattern cannot match inside `before` when its prefix begins nowhere in it. */
  lemma NoMatchBefore(before: string, pat: Pattern, tail: string)
    requires forall j :: 0 <= j < |before| ==> !StartsWith((before + pat.prefix)[j..], pat.prefix)
    ensures forall j :: 0 <= j < |before| ==> !MatchesAt(before + pat.prefix + tail, pat, j)
  {
    var head := before + pat.prefix;
    var s := head + tail;
    forall j | 0 <= j < |before|
      ensures !MatchesAt(s, pat, j)
    {
      assert s[j..j + |pat.prefix|] == head[j..][..|pat.prefix|];
    }
  }

  /** `Search` from `from` returns a match at `k` when none lies between `from` and `k`. */
  lemma {:induction false} SearchFindsLeftmost(s: string, pat: Pattern, from: nat, k: nat)
    requires from <= k <= |s| && MatchesAt(s, pat, k)
    requires forall j :: from <= j < k ==> !MatchesAt(s, pat, j)
    ensures Search(s, pat, from) == Some(k)
    decreases k - from
  {
    if from < k {
      SearchFindsLeftmost(s, pat, from + 1, k);
    }
  }

  // ---------------------------------------------------------------------
  // The directory

  /** A directory entry: its name and its text, `None` when opening or reading it raises. */
  datatype PageFile = PageFile(name: string, content: Option<string>)

  /** The tickers directory: `Missing`, or its entries in `os.listdir` order. */
  datatype TickersDir = Missing | Listed(entries: seq<PageFile>)

  /** The record an entry contributes: `.html` names that can be read, symbol and extracted price. */
  function EntryListing(file: PageFile): (r: Option<Listing<string>>)
    ensures r.Some? <==> EndsWith(file.name, HtmlSuffix) && file.content.Some?
    ensures r.Some? ==> r.value.symbol + HtmlSuffix == file.name && r.value.price == ExtractPrice(file.content.value)
  {
    var symbol := SymbolOfFilename(file.name);
    if symbol.Some? && file.content.Some? then Some(Listing(symbol.value, ExtractPrice(file.content.value)))
    else None
  }

  /**
   * `update_tickers_json`: `None` when the directory is missing (it returns
   * before writing); otherwise the records it writes to the JSON file.
   */
  method UpdateTickersJson(dir: TickersDir) returns (written: Option<seq<Listing<string>>>)
    ensures dir.Missing? ==> written.None?
    ensures dir.Listed? ==> written == Some(Sort(FilterMap(dir.entries, EntryListing)))
  {
    if dir.Missing? {
      return None;
    }
    var entries := dir.entries;
    var tickers: seq<Listing<string>> := [];
    for i := 0 to |entries|
      invariant tickers == FilterMap(entries[..i], EntryListing)
    {
      FilterMapStep(entries, i, EntryListing);
      var filename := entries[i].name;
      if EndsWith(filename, HtmlSuffix) {
        var symbol := filename[..|filename| - 5];
        var content := entries[i].content;
        if content.Some? {
          var price := ExtractPrice(content.value);
          tickers := tickers + [Listing(symbol, price)];
        }
      }
    }
    FilterMapWhole(entries, EntryListing);
    var a := new Listing<string>[|tickers|](k requires 0 <= k < |tickers| => tickers[k]);
    assert a[..] == tickers;
    SortInPlace(a);
    written := Some(a[..]);
  }

  /**
   * The index written is sorted by symbol and is a rearrangement of one
   * record per readable `.html` entry, in which `symbol + ".html"` is the
   * entry's name and the price is the one extracted from its text; every
   * readable `.html` entry contributes, and nothing else does.
   */
  lemma IndexFromPages(entries: seq<PageFile>)
    ensures var collected := FilterMap(entries, EntryListing);
      var out := Sort(collected);
      SortedBySymbol(out)
      && multiset(out) == multiset(collected)
      && |collected| == |KeptIndices(entries, EntryListing)|
      && (forall k :: 0 <= k < |collected| ==>
            KeptIndices(entries, EntryListing)[k] < |entries|
            && var file := entries[KeptIndices(entries, EntryListing)[k]];
            file.content.Some? && collected[k].symbol + HtmlSuffix == file.name
            && collected[k].price == ExtractPrice(file.content.value))
      && (forall i :: 0 <= i < |entries| && EndsWith(entries[i].name, HtmlSuffix) && entries[i].content.Some?
            ==> i in KeptIndices(entries, EntryListing))
  {
    var collected := FilterMap(entries, EntryListing);
    SortIsSorted(collected);
    SortPermutes(collected);
    FilterMapIndices(entries, EntryListing);
    var idx := KeptIndices(entries, EntryListing);
    forall k | 0 <= k < |collected|
      ensures idx[k] < |entries|
      ensures entries[idx[k]].content.Some? && collected[k].symbol + HtmlSuffix == entries[idx[k]].name
      ensures collected[k].price == ExtractPrice(entries[idx[k]].content.value)
    {
      assert EntryListing(entries[idx[k]]) == Some(collected[k]);
    }
    forall i | 0 <= i < |entries| && EndsWith(entries[i].name, HtmlSuffix) && entries[i].content.Some?
      ensures i in idx
    {
      assert EntryListing(entries[i]).Some?;
    }
  }
}
