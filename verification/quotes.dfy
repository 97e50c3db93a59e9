/**
 * What the scripts read from one answer of the Yahoo Finance v8 chart
 * endpoint (`https://query1.finance.yahoo.com/v8/finance/chart/<symbol>`),
 * and how a missing number is shown.
 */
module Quotes {
  import opened Wrappers

  /**
   * `chart.result[0]` of an answer:
   * - `timestampCount`: the length of its `timestamp` list (0 when absent);
   * - `hasQuoteFields`: `indicators.quote[0]` exists and has all of
   *   `open`, `high`, `low`, `close` and `volume`;
   * - `columnsAligned`: those five lists are as long as each other;
   * - `closes`: the `close` list, JSON `null` as `None`; an absent `close`
   *   key (or absent `indicators`/`quote`) is the empty list, which every
   *   reader of the first close treats the same way.
   */
  datatype Chart = Chart(timestampCount: nat, hasQuoteFields: bool, columnsAligned: bool, closes: seq<Option<real>>)

  /**
   * One request: `Failed` when `requests.get`, `raise_for_status` or
   * `.json()` raises; otherwise the result, `None` when `chart.result` is
   * missing or empty.
   */
  datatype Response = Failed | Fetched(result: Option<Chart>)

  /**
   * `pd.DataFrame(quotes, index=pd.to_datetime(timestamps))` is built
   * (timestamps present, all five fields present, every column as long as
   * the index), is non-empty and has a `close` column.
   */
  predicate BuildsFrame(c: Chart) {
    c.timestampCount > 0 && c.hasQuoteFields && c.columnsAligned && |c.closes| == c.timestampCount
  }

  /** `close[0]` when the list has one and it is not `null`. */
  function FirstClose(c: Chart): (r: Option<real>)
    ensures r.Some? <==> |c.closes| > 0 && c.closes[0].Some?
    ensures r.Some? ==> r.value == c.closes[0].value
  {
    if |c.closes| > 0 then c.closes[0] else None
  }

  /** A displayed value: `f"{v:.2f}"` of a number, or the text `"N/A"`. */
  datatype Shown = NotAvailable | TwoDecimals(value: real) {

    /** The number a display stands for, if any. */
    function Number(): Option<real> {
      if TwoDecimals? then Some(value) else None
    }
  }

  /** `f"{v:.2f}" if not pd.isna(v) else "N/A"`. */
  function Display(v: Option<real>): (d: Shown)
    ensures d.NotAvailable? <==> v.None?
    ensures d.Number() == v
  {
    if v.Some? then TwoDecimals(v.value) else NotAvailable
  }
}
