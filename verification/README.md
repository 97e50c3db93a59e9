# NASDAQ-100 scanner: a Dafny model of its decision rules and string handling

The scanner pulls the NASDAQ-100 symbols from SlickCharts, fetches prices
and price history from Yahoo Finance, computes daily and weekly RSI and
Stochastic RSI with pandas_ta, writes one HTML page per symbol, and lists
the symbols that meet the "recommended buy" rule. This project models the
logic of its three working scripts, file by file:

- `ticker_files.dfy` (`update_ticker_files.py`): reading the tickers file,
  the default price, dropping null weekly closes, the 15- and 30-point guards
  on the weekly series, the linear Stochastic RSI proxy, the recommended-buy
  rule, the `"N/A"` display of undefined values, and the loop that builds the
  pages and the `recommended_buys` list.
- `nasdaq_tickers.dfy` (`nasdaq_tickers.py`): the table-row filter, the `$`
  stripping, one record per symbol, the sort by symbol, and the
  one-symbol-per-line file that `update_ticker_files.py` reads back.
- `tickers_json.dfy` (`update_tickers_json.py`): the `.html` filter, the
  symbol taken from the file name, the two price patterns with their `"N/A"`
  fallback, and the sort by symbol.

Shared modules: `text.dfy` (Python's `str.strip`, `startswith`/`endswith`,
the `<` order on `str`, line splitting), `listings.dfy` (the
`{"symbol", "price"}` record and `list.sort(key=symbol)` as an in-place
stable insertion sort), `quotes.dfy` (what the scripts read from a Yahoo
chart answer, and the `"N/A"` display), `seqs.dfy` (the "append when
defined" comprehension every collecting loop computes) and `wrappers.dfy`
(`Option`).

pandas_ta is modelled as `TickerFiles.Oscillators`: two functions from a close
column to an optional real, where `None` stands for NaN. Network answers, file
contents and directory listings are the inputs of the methods.
`source: string -> Feed` and `fetch: string -> Response` are the answers the
data source gives for each symbol. The methods return what the scripts write
or return.

Facts about the program that shape the model:
- `update_ticker_files` computes one rule, the recommended buy (weekly RSI
  below 20 and weekly Stochastic RSI below 10), and returns one list
  (`update_ticker_files.py:310`). A "Good Buy" tier (weekly Stochastic RSI
  below 20 and RSI below 35) appears only in the page text that `scan.py`
  writes (`scan.py:158-161`). `scan.py:12` unpacks two lists from the call,
  which one returned list does not give. The model has the recommended rule
  only.
- RSI and Stochastic RSI come from pandas_ta calls, so the indicators are
  opaque inputs here.
- The weekly series is guarded by length (15 and 30 clean points). The
  daily series has no guard (`update_ticker_files.py:96-114`), and the model
  has none there either.
- A symbol whose quote request or daily-history request fails, or whose quote
  has no result, is skipped entirely: no page and no entry
  (`update_ticker_files.py:63-65,301`).
- The recommended list stays in tickers-file order; nothing sorts it.

## Model

| member | source | states |
|---|---|---|
| Text.Strip | update_ticker_files.py:34 | `strip()` returns the infix of the line between an all-whitespace prefix and an all-whitespace suffix (Python's `isspace` set), has no leading or trailing whitespace itself, and is empty exactly when the line is all whitespace |
| Text.StripKeeps | update_ticker_files.py:34 | a string without surrounding whitespace is left unchanged by `strip()` |
| Text.BelowTotal | nasdaq_tickers.py:77 | Python's `<` on `str` orders any two distinct strings one way or the other (with BelowTransitive and BelowIrreflexive it is a strict total order, which the sort relies on) |
| Text.BelowTransitive | nasdaq_tickers.py:77 | Python's `<` on `str` is transitive |
| Text.Split | update_ticker_files.py:34 | the text is cut at each `\n` and each `\r`: no piece holds a break, there is one more piece than breaks, and putting the breaks back between the pieces gives the text again (a CRLF ending and a final newline each leave an empty piece, which the strip-and-filter drops, so the tickers and not the pieces match Python's lines) |
| Text.SplitJoined | nasdaq_tickers.py:97-99 | splitting what was written one piece per line gives the pieces back, then the empty tail after the last newline |
| Listings.SortInPlace | nasdaq_tickers.py:77 | the in-place sort leaves the array equal to the insertion-sort order `Sort` of its old contents |
| Listings.SortIsSorted | nasdaq_tickers.py:77 | the sorted records are ascending by symbol |
| Listings.SortPermutes | update_tickers_json.py:50 | the sorted records are exactly the records given, each as often as given |
| Listings.SortIsStable | nasdaq_tickers.py:77 | records with the same symbol keep their original relative order, as Python's stable sort keeps them |
| Quotes.Display | update_ticker_files.py:197-200 | a value is shown as `"N/A"` exactly when it is undefined, and otherwise the shown number is the value itself |
| TickerFiles.ParseTickersKeepsLines | update_ticker_files.py:34 | the tickers are exactly the stripped non-blank lines, in file order: k-th ticker from the k-th kept line, kept lines ascending, no non-blank line missed |
| TickerFiles.ParsedTickersAreClean | update_ticker_files.py:34 | every ticker read is non-empty and has no surrounding whitespace |
| TickerFiles.DropNullClosesKeepsValues | update_ticker_files.py:140-142 | dropping null closes keeps exactly the non-null closes in their order and never lengthens the series |
| TickerFiles.StochRsiProxy | update_ticker_files.py:171-172 | the proxy always lies in [0, 100] |
| TickerFiles.ProxyIsClampedRescale | update_ticker_files.py:169-172 | the proxy equals RSI clamped to [30, 70] and mapped linearly onto [0, 100] (30 to 0, 70 to 100) |
| TickerFiles.ProxyMonotone | update_ticker_files.py:171-172 | the proxy never decreases as RSI grows |
| TickerFiles.ProxyPoints | update_ticker_files.py:171-172 | the proxy maps 30 to 0, 50 to 50, 70 to 100, 20 to 0 and 80 to 100 |
| TickerFiles.FewPointsLeaveWeeklyUndefined | update_ticker_files.py:145-153 | with fewer than 15 clean weekly points neither weekly RSI nor weekly Stochastic RSI is defined |
| TickerFiles.WeeklyStochRsiSource | update_ticker_files.py:157-175 | weekly Stochastic RSI is pandas_ta's only from 30 clean points; below that it is the proxy of the weekly RSI when that is defined (so at least 15 points), else undefined; a defined weekly RSI is pandas_ta's on at least 15 points |
| TickerFiles.WeeklyIndicators | update_ticker_files.py:118-183 | the step-by-step weekly block yields the weekly indicator pair `WeeklySignals` of the weekly answer, and a Stochastic RSI without an RSI only from a series of at least 30 closes |
| TickerFiles.ThresholdsAreStrict | update_ticker_files.py:10-11 | a weekly RSI of exactly 20 or a weekly Stochastic RSI of exactly 10 never qualifies |
| TickerFiles.RecommendedIsDownwardClosed | update_ticker_files.py:186-187 | a qualifying pair still qualifies with defined values that are no higher |
| TickerFiles.ProxyRegimeRecommendation | update_ticker_files.py:160-187 | with 15 to 29 clean weekly points a symbol qualifies exactly when its weekly RSI is defined and below 20 |
| TickerFiles.ShortWeeklySeriesNeverRecommended | update_ticker_files.py:140-187 | a weekly answer with fewer than 15 closes, null or not, never yields a recommendation |
| TickerFiles.ClosePrice | update_ticker_files.py:68-75 | the price is the first close when there is one and it is not null, and 0.0 otherwise |
| TickerFiles.ProcessTicker | update_ticker_files.py:56-200 | the step-by-step loop body yields the same outcome as `Process`: skipped, or a page and an optional entry |
| TickerFiles.BuyForSymbol | update_ticker_files.py:186-193 | a symbol is appended exactly when it gets past both requests and its weekly pair meets the rule; the entry holds its symbol, close price and both weekly values |
| TickerFiles.PageForSymbol | update_ticker_files.py:63-200 | a symbol gets a page exactly when it gets past both requests; the page shows its price, its daily RSI and Stochastic RSI and its weekly values, `"N/A"` exactly for each undefined indicator, and a recommended symbol's page shows both weekly numbers |
| TickerFiles.UpdateTickerFiles | update_ticker_files.py:26-310 | an unreadable or empty tickers file returns before any page or JSON file is written; otherwise the pages and the recommended list are the per-ticker outcomes in ticker order |
| TickerFiles.RecommendedBuysInFileOrder | update_ticker_files.py:49-193 | the recommended list is exactly the qualifying tickers in file order, each with its own price and weekly values |
| NasdaqTickers.StripDollar | nasdaq_tickers.py:40-43 | one leading `$` is removed when present (`"$" + r == s`); a symbol without one is unchanged |
| NasdaqTickers.StripDollarOnce | nasdaq_tickers.py:42-43 | only one `$` is removed: `"$$X"` becomes `"$X"` |
| NasdaqTickers.RowSymbol | nasdaq_tickers.py:36-39 | a row yields a symbol exactly when it has more than two cells and the third holds a link |
| NasdaqTickers.ExtractSymbols | nasdaq_tickers.py:34-44 | the row loop collects `RowSymbol` of each row that yields one, in row order |
| NasdaqTickers.SymbolsInRowOrder | nasdaq_tickers.py:35-44 | the symbols come exactly from the qualifying rows, in row order, each the stripped link text less one leading `$` |
| NasdaqTickers.PriceOf | nasdaq_tickers.py:60-74 | the price is the first close exactly when the request succeeds and that close exists and is not null, and `"N/A"` otherwise (a failed request included) |
| NasdaqTickers.FetchPrices | nasdaq_tickers.py:47-74 | the price loop makes one record per symbol, in order, each with `PriceOf` its own answer |
| NasdaqTickers.GetNasdaqTickers | nasdaq_tickers.py:7-79 | a failed page fetch or a missing table gives `[]`; otherwise the result is the collected records sorted by symbol |
| NasdaqTickers.TickersSortedOnePerSymbol | nasdaq_tickers.py:47-77 | the returned list is sorted, is a permutation of the collected records, has as many records as symbols with each symbol as often as extracted, each record priced from its own symbol, and repeated symbols kept in order |
| NasdaqTickers.WriteSymbolFile | nasdaq_tickers.py:97-99 | the text file is every symbol followed by a newline, in list order |
| NasdaqTickers.SaveTickersToJson | nasdaq_tickers.py:81-102 | the records returned are those of `get_nasdaq_tickers`, and the symbol file lists their symbols one per line |
| NasdaqTickers.ParseJoined | nasdaq_tickers.py:97-99 | reading back lines written without breaks gives their stripped non-blank forms |
| NasdaqTickers.SymbolFileRoundTrip | nasdaq_tickers.py:97-99 | the tickers parser reads the symbol file back as exactly the symbols written, for non-empty symbols without surrounding whitespace or line breaks |
| TickersJson.SymbolOfFilename | update_tickers_json.py:21-22 | a name yields a symbol exactly when it ends in `.html`, and then `symbol + ".html"` is the name |
| TickersJson.FilenameRoundTrip | update_tickers_json.py:21-22 | the page written as `f"{symbol}.html"` gives back `symbol` |
| TickersJson.RunLength | update_tickers_json.py:31 | the run of `[\d.]` at a position is all price characters and cannot be extended |
| TickersJson.GreedyGroupIsRun | update_tickers_json.py:31-36 | for both patterns, every regular-expression match at a position has the whole run there as its greedy group, and no group is longer |
| TickersJson.Search | update_tickers_json.py:31 | the search returns the leftmost match position at or after its start, or reports that there is none |
| TickersJson.Find | update_tickers_json.py:31-38 | there is no group exactly when the pattern matches at no position; otherwise the group is the whole run of `[\d.]` after the prefix of the leftmost match, a non-empty string of digits and `.` |
| TickersJson.SearchFindsLeftmost | update_tickers_json.py:31 | the search returns a match position when no match lies between its start and it |
| TickersJson.ExtractPrice | update_tickers_json.py:31-41 | the price is `"N/A"` exactly when neither pattern matches; otherwise it is a non-empty string of digits and `.` |
| TickersJson.NewFormatWins | update_tickers_json.py:31-33 | when the new `<div class="price">` format matches, its group is the price |
| TickersJson.OldFormatFallback | update_tickers_json.py:34-41 | when the new format matches nowhere, the price is the old `<p>Price: $…</p>` group, or `"N/A"` |
| TickersJson.RenderedPriceRoundTrip | update_ticker_files.py:267 | a page holding the price line as `update_ticker_files.py` renders it gives that price back, whatever follows it and whatever precedes it, as long as the new-format prefix begins nowhere before it |
| TickersJson.EntryListing | update_tickers_json.py:20-43 | an entry contributes exactly when its name ends in `.html` and it can be read, with `symbol + ".html" == name` and the extracted price |
| TickersJson.UpdateTickersJson | update_tickers_json.py:5-58 | a missing directory returns before anything is written; otherwise the index written is the readable `.html` entries' records sorted by symbol |
| TickersJson.IndexFromPages | update_tickers_json.py:20-50 | the index is sorted and a permutation of one record per readable `.html` entry, with matching name and extracted price; no such entry is missed |

## Left out

- All HTTP traffic to Yahoo Finance and SlickCharts, the `time.sleep` rate limiting, and the file reads and writes. They are I/O. Their results are method inputs, and what would be written is a method output.
- pandas_ta's `rsi` and `stochrsi`, and the pandas DataFrame construction. They are foreign library code. The indicators are opaque functions (`TickerFiles.Oscillators`). A frame is built exactly when `Quotes.BuildsFrame` holds.
- `:.2f` formatting and IEEE floating point. Prices and indicators are `real`, NaN is `None`, and a formatted value is `Quotes.Shown`. The proxy returns the Python ints `0`/`100` at its ends; the model returns the reals 0 and 100.
- BeautifulSoup parsing. A table row is the text of each cell's first link (`NasdaqTickers.Row`).
- The JSON serialisation done by `json.dump`. The model returns the records that would be dumped.
- The HTML and CSS of the pages (`update_ticker_files.py:203-293`, `scan.py`). This is UI. Only the values a page shows are modelled (`TickerFiles.Page`).
- `main.py` orchestration and `start_server.py` serving. These are process glue and networking.
- Malformed JSON beyond missing keys, such as a `result` entry that is not an object. The `TypeError` this raises is not modelled.
- A failure to write a page after its symbol was appended to the list. The symbol stays recommended in the source, and the model has no write failures.
- Text.Split: the pieces are not Python's universal-newline lines, because a `\r\n` ending and a final newline each add an empty piece. Only the tickers parsed from them are promised to match, since blank pieces are filtered out.
- The fetch answers depend only on the symbol. A symbol listed twice gets the same answers both times.
- The regex class `\d` is modelled as ASCII `0`-`9`. Python's `\d` also matches the other Unicode decimal digits.
