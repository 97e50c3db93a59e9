/**
 * `nasdaq_tickers.py`: take the NASDAQ-100 symbols from the SlickCharts
 * table, record each with its current price, sort the records by symbol,
 * and write the symbols one per line for `update_ticker_files.py`.
 */
module NasdaqTickers {
  import opened Wrappers
  import opened Seqs
  import opened Text
  import opened Quotes
  import opened Listings
  import opened TickerFiles

  /**
   * A `<tr>` of the table as BeautifulSoup sees it: for each of its `<td>`
   * cells, the text of the cell's first `<a>`, or `None` when it has none.
   */
  type Row = seq<Option<string>>

  /**
   * The SlickCharts page: `Unreachable` when the request raises;
   * otherwise the rows of the ticker table, `None` when there is no table.
   */
  datatype SlickCharts = Unreachable | Loaded(table: Option<seq<Row>>)

  /** `s[1:] if s.startswith('$') else s`: one leading `$` removed, if there is one. */
  function StripDollar(s: string): (r: string)
    ensures StartsWith(s, "$") ==> "$" + r == s
    ensures !StartsWith(s, "$") ==> r == s
  {
    if StartsWith(s, "$") then s[1..] else s
  }

  /** `$` is removed once only: a doubled `$` leaves one behind. */
  lemma StripDollarOnce(s: string)
    ensures StripDollar("$$" + s) == "$" + s
    ensures StripDollar("$" + s) == s
  {
    assert ("$$" + s)[1..] == "$" + s;
    assert ("$" + s)[1..] == s;
  }

  /** The symbol a row yields: more than two cells, a link in the third, its text stripped and de-dollared. */
  function RowSymbol(row: Row): (r: Option<string>)
    ensures r.Some? <==> |row| > 2 && row[2].Some?
  {
    if |row| > 2 && row[2].Some? then Some(StripDollar(Strip(row[2].value))) else None
  }

  /** The loop of lines 35-44, appending to `ticker_symbols`. */
  method ExtractSymbols(rows: seq<Row>) returns (tickerSymbols: seq<string>)
    ensures tickerSymbols == FilterMap(rows, RowSymbol)
  {
    tickerSymbols := [];
    for i := 0 to |rows|
      invariant tickerSymbols == FilterMap(rows[..i], RowSymbol)
    {
      FilterMapStep(rows, i, RowSymbol);
      var cells := rows[i];
      if |cells| > 0 && |cells| > 2 {
        var tickerLink := cells[2];
        if tickerLink.Some? {
          var tickerSymbol := Strip(tickerLink.value);
          if StartsWith(tickerSymbol, "$") {
            tickerSymbol := tickerSymbol[1..];
          }
          tickerSymbols := tickerSymbols + [tickerSymbol];
        }
      }
    }
    FilterMapWhole(rows, RowSymbol);
  }

  /**
   * The symbols come exactly from the rows with more than two cells and a
   * link in the third, in row order, each the stripped link text less one
   * leading `$`.
   */
  lemma SymbolsInRowOrder(rows: seq<Row>)
    ensures var syms, idx := FilterMap(rows, RowSymbol), KeptIndices(rows, RowSymbol);
      |idx| == |syms|
      && StrictlyIncreasing(idx)
      && (forall k :: 0 <= k < |idx| ==>
            idx[k] < |rows| && |rows[idx[k]]| > 2 && rows[idx[k]][2].Some?
            && syms[k] == StripDollar(Strip(rows[idx[k]][2].value)))
      && (forall i :: 0 <= i < |rows| && |rows[i]| > 2 && rows[i][2].Some? ==> i in idx)
  {
    FilterMapIndices(rows, RowSymbol);
  }

  /** The price recorded for a symbol: its formatted first close, or `"N/A"` (lines 60-74). */
  function PriceOf(response: Response): (p: Shown)
    ensures p.TwoDecimals? <==> response.Fetched? && response.result.Some? && FirstClose(response.result.value).Some?
    ensures p.TwoDecimals? ==> p.value == FirstClose(response.result.value).value
  {
    if response.Fetched? && response.result.Some? then Display(FirstClose(response.result.value))
    else NotAvailable
  }

  /** The records collected before sorting: one per symbol, in symbol-list order. */
  function Collected(symbols: seq<string>, fetch: string -> Response): (ls: seq<Listing<Shown>>)
    ensures |ls| == |symbols|
    ensures forall i :: 0 <= i < |symbols| ==> ls[i] == Listing(symbols[i], PriceOf(fetch(symbols[i])))
  {
    seq(|symbols|, i requires 0 <= i < |symbols| => Listing(symbols[i], PriceOf(fetch(symbols[i]))))
  }

  /** The loop of lines 48-74: every symbol gets one record, `"N/A"` priced when its request fails. */
  method FetchPrices(symbols: seq<string>, fetch: string -> Response) returns (tickers: seq<Listing<Shown>>)
    ensures tickers == Collected(symbols, fetch)
  {
    tickers := [];
    for i := 0 to |symbols|
      invariant tickers == Collected(symbols[..i], fetch)
    {
      var symbol := symbols[i];
      var response := fetch(symbol);
      if response.Failed? {
        tickers := tickers + [Listing(symbol, NotAvailable)];
      } else {
        var price := NotAvailable;
        if response.result.Some? {
          var quote := response.result.value;
          if |quote.closes| > 0 && quote.closes[0].Some? {
            price := TwoDecimals(quote.closes[0].value);
          }
        }
        tickers := tickers + [Listing(symbol, price)];
      }
    }
    assert symbols[..|symbols|] == symbols;
  }

  /** `get_nasdaq_tickers`: `[]` when the page or its table is missing, else the sorted records. */
  method GetNasdaqTickers(page: SlickCharts, fetch: string -> Response) returns (tickers: seq<Listing<Shown>>)
    ensures page.Unreachable? || page.table.None? ==> tickers == []
    ensures page.Loaded? && page.table.Some? ==>
      tickers == Sort(Collected(FilterMap(page.table.value, RowSymbol), fetch))
  {
    if page.Unreachable? || page.table.None? {
      return [];
    }
    var tickerSymbols := ExtractSymbols(page.table.value);
    var collected := FetchPrices(tickerSymbols, fetch);
    var a := new Listing<Shown>[|collected|](i requires 0 <= i < |collected| => collected[i]);
    assert a[..] == collected;
    SortInPlace(a);
    tickers := a[..];
  }

  lemma {:induction false} CollectedCounts(symbols: seq<string>, fetch: string -> Response, s: string)
    ensures multiset(Collected(symbols, fetch))[Listing(s, PriceOf(fetch(s)))] == multiset(symbols)[s]
  {
    if symbols != [] {
      var n := |symbols| - 1;
      CollectedCounts(symbols[..n], fetch, s);
      assert Collected(symbols, fetch) == Collected(symbols[..n], fetch) + [Listing(symbols[n], PriceOf(fetch(symbols[n])))];
      assert symbols == symbols[..n] + [symbols[n]];
    }
  }

  /**
   * What `get_nasdaq_tickers` returns is sorted by symbol and is the
   * collected records rearranged: as many records as symbols, each symbol
   * as often as it was extracted, each record carrying the price of its own
   * symbol, and records of a repeated symbol in extraction order.
   */
  lemma TickersSortedOnePerSymbol(symbols: seq<string>, fetch: string -> Response)
    ensures var out := Sort(Collected(symbols, fetch));
      SortedBySymbol(out)
      && multiset(out) == multiset(Collected(symbols, fetch))
      && |out| == |symbols|
      && (forall s :: multiset(out)[Listing(s, PriceOf(fetch(s)))] == multiset(symbols)[s])
      && (forall k :: 0 <= k < |out| ==> out[k].symbol in symbols && out[k].price == PriceOf(fetch(out[k].symbol)))
      && (forall s :: WithSymbol(out, s) == WithSymbol(Collected(symbols, fetch), s))
  {
    var c := Collected(symbols, fetch);
    var out := Sort(c);
    SortIsSorted(c);
    SortPermutes(c);
    forall s
      ensures multiset(out)[Listing(s, PriceOf(fetch(s)))] == multiset(symbols)[s]
    {
      CollectedCounts(symbols, fetch, s);
    }
    forall k | 0 <= k < |out|
      ensures out[k].symbol in symbols && out[k].price == PriceOf(fetch(out[k].symbol))
    {
      assert out[k] in multiset(c);
      var i :| 0 <= i < |c| && c[i] == out[k];
    }
    forall s
      ensures WithSymbol(out, s) == WithSymbol(c, s)
    {
      SortIsStable(c, s);
    }
  }

  /** The write loop of lines 97-99: each symbol followed by a newline. */
  method WriteSymbolFile(tickers: seq<Listing<Shown>>) returns (text: string)
    ensures text == Joined(Symbols(tickers))
  {
    text := "";
    ghost var symbols := Symbols(tickers);
    for i := 0 to |tickers|
      invariant text == Joined(symbols[..i])
    {
      JoinedStep(symbols, i);
      text := text + tickers[i].symbol + "\n";
    }
    assert symbols[..|tickers|] == symbols;
  }

  /**
   * `save_tickers_to_json`: the records it saves and returns, and the text
   * of the symbol file it writes.
   */
  method SaveTickersToJson(page: SlickCharts, fetch: string -> Response) returns (tickers: seq<Listing<Shown>>, symbolFile: string)
    ensures page.Unreachable? || page.table.None? ==> tickers == [] && symbolFile == ""
    ensures page.Loaded? && page.table.Some? ==>
      tickers == Sort(Collected(FilterMap(page.table.value, RowSymbol), fetch))
    ensures symbolFile == Joined(Symbols(tickers))
  {
    tickers := GetNasdaqTickers(page, fetch);
    symbolFile := WriteSymbolFile(tickers);
  }

  /** Reading back lines written without breaks: the stripped, non-blank ones. */
  lemma ParseJoined(lines: seq<string>)
    requires forall k :: 0 <= k < |lines| ==> HasNoLineBreak(lines[k])
    ensures ParseTickers(Joined(lines)) == FilterMap(lines, StrippedLine)
  {
    SplitJoined(lines);
    FilterMapAppend(lines, [""], StrippedLine);
    assert Strip("") == "";
    assert FilterMap([""], StrippedLine) == [] by {
      assert [""][..0] == [];
    }
  }

  /**
   * The symbol file reads back as the symbols written, provided each is
   * non-empty, has no surrounding whitespace and no line break.
   */
  lemma SymbolFileRoundTrip(symbols: seq<string>)
    requires forall k :: 0 <= k < |symbols| ==>
      symbols[k] != [] && NoSurroundingSpace(symbols[k]) && HasNoLineBreak(symbols[k])
    ensures ParseTickers(Joined(symbols)) == symbols
  {
    SymbolLinesKept(symbols);
    ParseJoined(symbols);
  }

  /** Non-empty symbols without surrounding whitespace all survive the comprehension unchanged. */
  lemma SymbolLinesKept(symbols: seq<string>)
    requires forall k :: 0 <= k < |symbols| ==> symbols[k] != [] && NoSurroundingSpace(symbols[k])
    ensures FilterMap(symbols, StrippedLine) == symbols
  {
    forall k | 0 <= k < |symbols|
      ensures StrippedLine(symbols[k]) == Some(symbols[k])
    {
      StripKeeps(symbols[k]);
    }
    FilterMapKeepsAll(symbols, StrippedLine);
  }
}
