/**
 * `update_ticker_files.py`: read the ticker symbols, and for each one fetch
 * its quote, its daily history and its weekly history, compute the daily and
 * weekly RSI and Stochastic RSI, write its page, and collect the symbols
 * that meet the recommended-buy rule.
 */
module TickerFiles {
  import opened Wrappers
  import opened Seqs
  import opened Text
  import opened Quotes

  /** The recommended-buy thresholds: weekly RSI and weekly Stochastic RSI must lie strictly below them. */
  const WeeklyRsiThreshold: real := 20.0
  const WeeklyStochRsiThreshold: real := 10.0

  /** The least number of non-null weekly closes for which each weekly indicator is requested. */
  const RsiMinPoints: nat := 15
  const StochRsiMinPoints: nat := 30

  // ---------------------------------------------------------------------
  // The tickers file

  /** `line.strip()` when that is not empty. */
  function StrippedLine(line: string): Option<string> {
    var t := Strip(line);
    if t == [] then None else Some(t)
  }

  /** `[line.strip() for line in f if line.strip()]`. */
  function ParseTickers(content: string): seq<string> {
    FilterMap(Split(content), StrippedLine)
  }

  /**
   * The tickers are exactly the lines that are not blank, stripped, in file
   * order: the k-th ticker is the stripped line at the k-th kept position,
   * the kept positions ascend, and every line with a non-space character is
   * kept.
   */
  lemma ParseTickersKeepsLines(content: string)
    ensures var lines, idx, ts := Split(content), KeptIndices(Split(content), StrippedLine), ParseTickers(content);
      |idx| == |ts|
      && StrictlyIncreasing(idx)
      && (forall k :: 0 <= k < |idx| ==> idx[k] < |lines| && ts[k] == Strip(lines[idx[k]]))
      && (forall i :: 0 <= i < |lines| && !AllSpace(lines[i]) ==> i in idx)
  {
    var lines := Split(content);
    FilterMapIndices(lines, StrippedLine);
    var idx, ts := KeptIndices(lines, StrippedLine), ParseTickers(content);
    forall k | 0 <= k < |idx|
      ensures ts[k] == Strip(lines[idx[k]])
    {
      assert StrippedLine(lines[idx[k]]) == Some(ts[k]);
    }
    forall i | 0 <= i < |lines| && !AllSpace(lines[i])
      ensures i in idx
    {
      assert StrippedLine(lines[i]).Some?;
    }
  }

  /** Every ticker read from the file is non-empty and has no surrounding whitespace. */
  lemma {:induction false} ParsedTickersAreClean(content: string)
    ensures forall k :: 0 <= k < |ParseTickers(content)| ==>
      ParseTickers(content)[k] != [] && NoSurroundingSpace(ParseTickers(content)[k])
  {
    var lines := Split(content);
    FilterMapIndices(lines, StrippedLine);
  }

  // ---------------------------------------------------------------------
  // Indicators

  /**
   * The two pandas_ta calls the script makes on a close column:
   * `ta.rsi(close, length=14).iloc[-1]` and
   * `ta.stochrsi(close)["STOCHRSIk_14_14_3_3"].iloc[-1]`. `None` stands for
   * NaN, for a result that is not a (non-empty) Series or DataFrame, and for
   * an exception raised inside the call; all three leave the indicator NaN.
   */
  datatype Oscillators = Oscillators(rsi: seq<Option<real>> -> Option<real>, stochK: seq<Option<real>> -> Option<real>)

  /** An indicator pair, `None` for NaN. */
  datatype Signals = Signals(rsi: Option<real>, stochRsi: Option<real>)

  function CloseValue(c: Option<real>): Option<real> {
    c
  }

  /** `dropna(subset=['close'])`: the non-null closes, in order. */
  function DropNullCloses(closes: seq<Option<real>>): seq<real> {
    FilterMap(closes, CloseValue)
  }

  /** The cleaned closes as the column handed to pandas_ta. */
  function Column(xs: seq<real>): (col: seq<Option<real>>)
    ensures |col| == |xs|
    ensures forall i :: 0 <= i < |xs| ==> col[i] == Some(xs[i])
  {
    seq(|xs|, i requires 0 <= i < |xs| => Some(xs[i]))
  }

  /**
   * Cleaning keeps exactly the non-null closes, in order, and never
   * lengthens the series.
   */
  lemma DropNullClosesKeepsValues(closes: seq<Option<real>>)
    ensures |DropNullCloses(closes)| <= |closes|
    ensures var idx, clean := KeptIndices(closes, CloseValue), DropNullCloses(closes);
      |idx| == |clean|
      && StrictlyIncreasing(idx)
      && (forall k :: 0 <= k < |idx| ==> idx[k] < |closes| && closes[idx[k]] == Some(clean[k]))
      && (forall i :: 0 <= i < |closes| && closes[i].Some? ==> i in idx)
  {
    FilterMapShorter(closes, CloseValue);
    FilterMapIndices(closes, CloseValue);
  }

  /**
   * The substitute for Stochastic RSI when there are too few weekly points:
   * RSI from 30 to 70 rescaled linearly onto 0 to 100, 0 below and 100 above.
   */
  function StochRsiProxy(rsi: real): (p: real)
    ensures 0.0 <= p <= 100.0
  {
    if 30.0 <= rsi <= 70.0 then (rsi - 30.0) * (100.0 / (70.0 - 30.0))
    else if rsi < 30.0 then 0.0
    else 100.0
  }

  /** RSI clamped to [30, 70]. */
  function Clamp(rsi: real): (c: real)
    ensures 30.0 <= c <= 70.0
  {
    if rsi < 30.0 then 30.0 else if rsi > 70.0 then 70.0 else rsi
  }

  /** The proxy is the clamped RSI mapped onto [0, 100] by the line through (30, 0) and (70, 100). */
  lemma ProxyIsClampedRescale(rsi: real)
    ensures StochRsiProxy(rsi) == (Clamp(rsi) - 30.0) * 2.5
  {
  }

  /** The proxy never decreases as RSI grows. */
  lemma ProxyMonotone(a: real, b: real)
    requires a <= b
    ensures StochRsiProxy(a) <= StochRsiProxy(b)
  {
  }

  lemma ProxyPoints()
    ensures StochRsiProxy(30.0) == 0.0 && StochRsiProxy(50.0) == 50.0 && StochRsiProxy(70.0) == 100.0
    ensures StochRsiProxy(20.0) == 0.0 && StochRsiProxy(80.0) == 100.0
  {
  }

  /** Weekly RSI and Stochastic RSI of the cleaned weekly closes (lines 144-175). */
  function WeeklySignalsOf(clean: seq<real>, ta: Oscillators): Signals {
    var rsi := if |clean| >= RsiMinPoints then ta.rsi(Column(clean)) else None;
    var stochRsi :=
      if |clean| >= StochRsiMinPoints then ta.stochK(Column(clean))
      else if |clean| >= RsiMinPoints && rsi.Some? then Some(StochRsiProxy(rsi.value))
      else None;
    Signals(rsi, stochRsi)
  }

  /** The weekly indicators of a weekly chart answer; NaN unless a frame is built (lines 118-183). */
  function WeeklySignals(weekly: Response, ta: Oscillators): Signals {
    if weekly.Fetched? && weekly.result.Some? && BuildsFrame(weekly.result.value) then
      WeeklySignalsOf(DropNullCloses(weekly.result.value.closes), ta)
    else Signals(None, None)
  }

  /** With fewer than 15 clean weekly points neither weekly indicator is defined. */
  lemma FewPointsLeaveWeeklyUndefined(clean: seq<real>, ta: Oscillators)
    requires |clean| < RsiMinPoints
    ensures WeeklySignalsOf(clean, ta) == Signals(None, None)
  {
  }

  /**
   * Where weekly Stochastic RSI comes from: pandas_ta from 30 clean points
   * on; below that the proxy of the weekly RSI, when there are at least 15
   * points and the RSI is defined; otherwise it is undefined.
   */
  lemma WeeklyStochRsiSource(clean: seq<real>, ta: Oscillators)
    ensures var s := WeeklySignalsOf(clean, ta);
      (|clean| >= StochRsiMinPoints ==> s.stochRsi == ta.stochK(Column(clean)))
      && (|clean| < StochRsiMinPoints && s.rsi.Some? ==> s.stochRsi == Some(StochRsiProxy(s.rsi.value)))
      && (|clean| < StochRsiMinPoints && s.rsi.None? ==> s.stochRsi.None?)
      && (s.rsi.Some? ==> |clean| >= RsiMinPoints && s.rsi == ta.rsi(Column(clean)))
  {
  }

  /** The recommended-buy rule (lines 186-187): both defined, both strictly below their thresholds. */
  predicate IsRecommendedBuy(s: Signals) {
    s.rsi.Some? && s.stochRsi.Some? && s.rsi.value < WeeklyRsiThreshold && s.stochRsi.value < WeeklyStochRsiThreshold
  }

  /** A symbol that qualifies still qualifies with lower (or equal) weekly values. */
  lemma RecommendedIsDownwardClosed(s: Signals, t: Signals)
    requires IsRecommendedBuy(s)
    requires t.rsi.Some? && t.stochRsi.Some?
    requires t.rsi.value <= s.rsi.value && t.stochRsi.value <= s.stochRsi.value
    ensures IsRecommendedBuy(t)
  {
  }

  /** The thresholds are strict: RSI 20 never qualifies, whatever the Stochastic RSI. */
  lemma ThresholdsAreStrict(stochRsi: Option<real>, rsi: Option<real>)
    ensures !IsRecommendedBuy(Signals(Some(20.0), stochRsi))
    ensures !IsRecommendedBuy(Signals(rsi, Some(10.0)))
  {
  }

  /**
   * With 15 to 29 clean weekly points (the proxy regime) a symbol is
   * recommended exactly when its weekly RSI is defined and below 20: the
   * proxy is then 0.
   */
  lemma ProxyRegimeRecommendation(clean: seq<real>, ta: Oscillators)
    requires RsiMinPoints <= |clean| < StochRsiMinPoints
    ensures IsRecommendedBuy(WeeklySignalsOf(clean, ta)) <==>
      ta.rsi(Column(clean)).Some? && ta.rsi(Column(clean)).value < WeeklyRsiThreshold
  {
  }

  /** A weekly answer with fewer than 15 closes, null or not, never yields a recommendation. */
  lemma ShortWeeklySeriesNeverRecommended(weekly: Response, ta: Oscillators)
    requires weekly.Fetched? && weekly.result.Some? && |weekly.result.value.closes| < RsiMinPoints
    ensures !IsRecommendedBuy(WeeklySignals(weekly, ta))
  {
    FilterMapShorter(weekly.result.value.closes, CloseValue);
  }

  /** The weekly block of the loop body, step by step as the script assigns `weekly_rsi` and `weekly_stoch_rsi`. */
  method WeeklyIndicators(weekly: Response, ta: Oscillators) returns (weeklyRsi: Option<real>, weeklyStochRsi: Option<real>)
    ensures Signals(weeklyRsi, weeklyStochRsi) == WeeklySignals(weekly, ta)
    ensures weeklyStochRsi.Some? && weeklyRsi.None? ==> weekly.result.Some? && |weekly.result.value.closes| >= StochRsiMinPoints
  {
    weeklyRsi, weeklyStochRsi := None, None;
    if weekly.Failed? || weekly.result.None? {
      return;
    }
    var chart := weekly.result.value;
    if !BuildsFrame(chart) {
      return;
    }
    var clean := DropNullCloses(chart.closes);
    FilterMapShorter(chart.closes, CloseValue);
    if |clean| >= RsiMinPoints {
      weeklyRsi := ta.rsi(Column(clean));
    }
    if |clean| >= StochRsiMinPoints {
      weeklyStochRsi := ta.stochK(Column(clean));
    } else if |clean| >= RsiMinPoints && weeklyRsi.Some? {
      weeklyStochRsi := Some(StochRsiProxy(weeklyRsi.value));
    }
  }

  // ---------------------------------------------------------------------
  // One symbol

  /** The three answers the loop body asks for: the 1-day quote, 60 days of daily bars, 6 months of weekly bars. */
  datatype Feed = Feed(quote: Response, history: Response, weekly: Response)

  /** What the page `<symbol>.html` shows: the price and the four indicators, each `"N/A"` when NaN. */
  datatype Page = Page(symbol: string, price: real, rsi: Shown, stochRsi: Shown, weeklyRsi: Shown, weeklyStochRsi: Shown)

  /** An entry of `recommended_buys`. */
  datatype Buy = Buy(symbol: string, price: real, weeklyRsi: real, weeklyStochRsi: real)

  /** What processing one symbol produces: its page, and its entry when it is recommended. */
  datatype Outcome = Outcome(page: Page, buy: Option<Buy>)

  /** The close price shown: `close[0]`, or 0.0 when it is missing or `null` (lines 68-75). */
  function ClosePrice(quote: Chart): (price: real)
    ensures FirstClose(quote).Some? ==> price == FirstClose(quote).value
    ensures FirstClose(quote).None? ==> price == 0.0
  {
    FirstClose(quote).GetOr(0.0)
  }

  /** The daily indicators: pandas_ta on the raw close column, with no cleaning and no length guard (lines 89-116). */
  function DailySignals(history: Response, ta: Oscillators): Signals {
    if history.Fetched? && history.result.Some? && BuildsFrame(history.result.value) then
      Signals(ta.rsi(history.result.value.closes), ta.stochK(history.result.value.closes))
    else Signals(None, None)
  }

  /**
   * A symbol gets past the two requests whose failure ends its iteration:
   * the quote answered with a chart result (lines 63-65), and the daily
   * history request did not raise (lines 78-81, caught at line 301).
   */
  predicate Reaches(feed: Feed) {
    feed.quote.Fetched? && feed.quote.result.Some? && feed.history.Fetched?
  }

  /** One iteration of the loop over tickers (lines 49-302); `None` when the symbol is skipped. */
  function Process(symbol: string, feed: Feed, ta: Oscillators): Option<Outcome> {
    if !Reaches(feed) then None
    else
      var price := ClosePrice(feed.quote.result.value);
      var daily := DailySignals(feed.history, ta);
      var weekly := WeeklySignals(feed.weekly, ta);
      var page := Page(symbol, price, Display(daily.rsi), Display(daily.stochRsi), Display(weekly.rsi), Display(weekly.stochRsi));
      var buy := if IsRecommendedBuy(weekly) then Some(Buy(symbol, price, weekly.rsi.value, weekly.stochRsi.value)) else None;
      Some(Outcome(page, buy))
  }

  /**
   * The body of the loop over tickers, step by step as the script assigns
   * `close_price`, `rsi`, `stoch_rsi`, `weekly_rsi` and `weekly_stoch_rsi`;
   * `None` where it skips the symbol.
   */
  method ProcessTicker(symbol: string, feed: Feed, ta: Oscillators) returns (outcome: Option<Outcome>)
    ensures outcome == Process(symbol, feed, ta)
  {
    if feed.quote.Failed? || feed.quote.result.None? {
      return None;
    }
    var closePrice := ClosePrice(feed.quote.result.value);
    if feed.history.Failed? {
      return None;
    }
    var rsi, stochRsi := None, None;
    var history := feed.history.result;
    if history.Some? && BuildsFrame(history.value) {
      rsi := ta.rsi(history.value.closes);
      stochRsi := ta.stochK(history.value.closes);
    }
    var weeklyRsi, weeklyStochRsi := WeeklyIndicators(feed.weekly, ta);
    var buy := None;
    if IsRecommendedBuy(Signals(weeklyRsi, weeklyStochRsi)) {
      buy := Some(Buy(symbol, closePrice, weeklyRsi.value, weeklyStochRsi.value));
    }
    var page := Page(symbol, closePrice, Display(rsi), Display(stochRsi), Display(weeklyRsi), Display(weeklyStochRsi));
    outcome := Some(Outcome(page, buy));
  }

  /** The page written for a symbol, if any. */
  function PageFor(source: string -> Feed, ta: Oscillators): string -> Option<Page> {
    symbol => var o := Process(symbol, source(symbol), ta); if o.Some? then Some(o.value.page) else None
  }

  /** The recommended-buy entry appended for a symbol, if any. */
  function BuyFor(source: string -> Feed, ta: Oscillators): string -> Option<Buy> {
    symbol => var o := Process(symbol, source(symbol), ta); if o.Some? then o.value.buy else None
  }

  /**
   * A symbol is appended to `recommended_buys` exactly when it gets past
   * both requests and its weekly indicators meet the rule; the entry
   * carries its symbol, its close price and its two weekly values.
   */
  lemma BuyForSymbol(source: string -> Feed, ta: Oscillators, symbol: string)
    ensures var feed, w := source(symbol), WeeklySignals(source(symbol).weekly, ta);
      (BuyFor(source, ta)(symbol).Some? <==> Reaches(feed) && IsRecommendedBuy(w))
      && (BuyFor(source, ta)(symbol).Some? ==>
            BuyFor(source, ta)(symbol).value == Buy(symbol, ClosePrice(feed.quote.result.value), w.rsi.value, w.stochRsi.value))
  {
  }

  /**
   * A symbol gets a page exactly when it gets past both requests; the page
   * shows its price, the value of each defined indicator and `"N/A"` for
   * each undefined one (daily and weekly), and the recommendation rests
   * on the same weekly values the page shows.
   */
  lemma PageForSymbol(source: string -> Feed, ta: Oscillators, symbol: string)
    ensures var feed, p := source(symbol), PageFor(source, ta)(symbol);
      (p.Some? <==> Reaches(feed))
      && (p.Some? ==>
            p.value.symbol == symbol
            && p.value.price == ClosePrice(feed.quote.result.value)
            && p.value.weeklyRsi.Number() == WeeklySignals(feed.weekly, ta).rsi
            && p.value.weeklyStochRsi.Number() == WeeklySignals(feed.weekly, ta).stochRsi
            && (p.value.weeklyRsi.NotAvailable? <==> WeeklySignals(feed.weekly, ta).rsi.None?)
            && (p.value.rsi.NotAvailable? <==> DailySignals(feed.history, ta).rsi.None?)
            && (p.value.stochRsi.NotAvailable? <==> DailySignals(feed.history, ta).stochRsi.None?)
            && (p.value.weeklyStochRsi.NotAvailable? <==> WeeklySignals(feed.weekly, ta).stochRsi.None?)
            && p.value.rsi.Number() == DailySignals(feed.history, ta).rsi
            && p.value.stochRsi.Number() == DailySignals(feed.history, ta).stochRsi)
      && (BuyFor(source, ta)(symbol).Some? ==> p.Some? && p.value.weeklyRsi.TwoDecimals? && p.value.weeklyStochRsi.TwoDecimals?)
  {
  }

  // ---------------------------------------------------------------------
  // The whole run

  /**
   * The outcome of `update_ticker_files`: `NoTickers` when the file cannot
   * be read or holds no symbol (it returns before writing any page or the JSON file);
   * otherwise the pages written and the list it saves and returns.
   */
  datatype Run = NoTickers | Completed(pages: seq<Page>, recommended: seq<Buy>)

  /**
   * `update_ticker_files`. `tickersFile` is the file's text, `None` when it
   * cannot be read; `source` gives the three answers fetched for a symbol.
   */
  method UpdateTickerFiles(tickersFile: Option<string>, source: string -> Feed, ta: Oscillators) returns (run: Run)
    ensures tickersFile.None? ==> run == NoTickers
    ensures tickersFile.Some? ==>
      var tickers := ParseTickers(tickersFile.value);
      run == if tickers == [] then NoTickers
             else Completed(FilterMap(tickers, PageFor(source, ta)), FilterMap(tickers, BuyFor(source, ta)))
  {
    if tickersFile.None? {
      return NoTickers;
    }
    var tickers := ParseTickers(tickersFile.value);
    if tickers == [] {
      return NoTickers;
    }
    var pages: seq<Page> := [];
    var recommendedBuys: seq<Buy> := [];
    for i := 0 to |tickers|
      invariant pages == FilterMap(tickers[..i], PageFor(source, ta))
      invariant recommendedBuys == FilterMap(tickers[..i], BuyFor(source, ta))
    {
      var symbol := tickers[i];
      FilterMapStep(tickers, i, PageFor(source, ta));
      FilterMapStep(tickers, i, BuyFor(source, ta));
      var outcome := ProcessTicker(symbol, source(symbol), ta);
      if outcome.Some? {
        if outcome.value.buy.Some? {
          recommendedBuys := recommendedBuys + [outcome.value.buy.value];
        }
        pages := pages + [outcome.value.page];
      }
    }
    FilterMapWhole(tickers, PageFor(source, ta));
    FilterMapWhole(tickers, BuyFor(source, ta));
    run := Completed(pages, recommendedBuys);
  }

  /**
   * `recommended_buys` lists, in ticker-file order, exactly the tickers
   * that get past both requests and meet the rule, each with its own close
   * price and weekly values: its k-th entry comes from the ticker at the
   * k-th kept position, those positions ascend, and no qualifying ticker is
   * missing.
   */
  lemma RecommendedBuysInFileOrder(tickers: seq<string>, source: string -> Feed, ta: Oscillators)
    ensures var buys, idx := FilterMap(tickers, BuyFor(source, ta)), KeptIndices(tickers, BuyFor(source, ta));
      |idx| == |buys|
      && StrictlyIncreasing(idx)
      && (forall k :: 0 <= k < |idx| ==>
            idx[k] < |tickers|
            && Reaches(source(tickers[idx[k]]))
            && IsRecommendedBuy(WeeklySignals(source(tickers[idx[k]]).weekly, ta))
            && buys[k] == Buy(tickers[idx[k]], ClosePrice(source(tickers[idx[k]]).quote.result.value),
                              WeeklySignals(source(tickers[idx[k]]).weekly, ta).rsi.value,
                              WeeklySignals(source(tickers[idx[k]]).weekly, ta).stochRsi.value))
      && (forall i :: 0 <= i < |tickers| && Reaches(source(tickers[i])) && IsRecommendedBuy(WeeklySignals(source(tickers[i]).weekly, ta))
            ==> i in idx)
  {
    var f := BuyFor(source, ta);
    FilterMapIndices(tickers, f);
    forall i | 0 <= i < |tickers|
      ensures f(tickers[i]).Some? <==> Reaches(source(tickers[i])) && IsRecommendedBuy(WeeklySignals(source(tickers[i]).weekly, ta))
    {
      BuyForSymbol(source, ta, tickers[i]);
    }
  }
}
