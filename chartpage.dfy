/**
 The hand-off from the live table to the chart page. The table stores the
 selected stock and the chart-history response under "selectedStock" and
 "chartData"; the chart page reads them back, rejects missing or empty data
 by redirecting to "/", and otherwise turns each candle into one chart point.
 The two sides test the stored value differently: the table checks the
 response's `length`, the chart page its `data` field.
 */
module ChartPage {
  import opened Wrappers
  import opened Browser
  import LiveLtp

  /** One candle of the chart-history response. */
  datatype Candle = Candle(time: int, close: int)

  /** A chart point: the tooltip's date-time text and the closing price. */
  datatype Point = Point(dateTime: string, price: int)

  /** The chart-history value as parsed from JSON: null, an array of candles, or an object with an optional `data` array. */
  datatype ChartJson = JNull | JArray(candles: seq<Candle>) | JObject(data: Option<seq<Candle>>)

  /** What a point holds under a `dataKey`, as the chart reads it. */
  datatype PointValue = Text(text: string) | Number(number: int)

  /** The key the X axis reads. */
  const XAxisKey := "time"

  /** The guard the live table applies before storing: `!chartData || chartData.length === 0` rejects. */
  predicate WriterAccepts(j: ChartJson)
  {
    match j
    case JNull => false
    case JArray(candles) => |candles| > 0
    case JObject(_) => true  // an object has no `length`, and `undefined === 0` is false
  }

  /** The chart page's guard on the stored value (the stored stock is checked separately). */
  predicate ReaderAccepts(j: ChartJson)
  {
    j.JObject? && j.data.Some? && |j.data.value| > 0
  }

  /** Everything the chart page accepts, the live table also lets through. */
  lemma ReaderAcceptedWasWritable(j: ChartJson)
    ensures ReaderAccepts(j) ==> WriterAccepts(j)
  {
  }

  /**
   The two guards disagree: a non-empty array of candles passes the table's
   check but is always rejected by the chart page, and so is an object whose
   `data` is missing or empty.
   */
  lemma GuardsDisagree(candles: seq<Candle>)
    ensures |candles| > 0 ==> WriterAccepts(JArray(candles)) && !ReaderAccepts(JArray(candles))
    ensures WriterAccepts(JObject(None)) && !ReaderAccepts(JObject(None))
    ensures WriterAccepts(JObject(Some([]))) && !ReaderAccepts(JObject(Some([])))
  {
  }

  /** `storedChartData.data.map(candle => ({dateTime: ..., price: candle.close}))`; `localeString` stands for the date formatting. */
  function FormatCandles(candles: seq<Candle>, localeString: int -> string): (points: seq<Point>)
    ensures |points| == |candles|
    ensures forall i :: 0 <= i < |candles| ==> points[i].price == candles[i].close
    ensures forall i :: 0 <= i < |candles| ==> points[i].dateTime == localeString(candles[i].time)
    decreases |candles|
  {
    if |candles| == 0 then []
    else [Point(localeString(candles[0].time), candles[0].close)] + FormatCandles(candles[1..], localeString)
  }

  /** A point's value under a `dataKey`: only "dateTime" and "price" exist. */
  function FieldOf(p: Point, key: string): Option<PointValue>
  {
    if key == "dateTime" then Some(Text(p.dateTime))
    else if key == "price" then Some(Number(p.price))
    else None
  }

  /**
   A point carries only `dateTime` and `price` (the mapping builds nothing
   else), so the X axis, which reads `time`, finds no value on any point.
   */
  lemma XAxisFindsNothing(p: Point)
    ensures FieldOf(p, XAxisKey).None?
  {
  }

  /** The chart page's state. */
  class ChartView {
    var chartData: seq<Point>
    var stock: Option<LiveLtp.Row>

    constructor ()
      ensures chartData == [] && stock == None
    {
      chartData := [];
      stock := None;
    }

    /**
     The mount effect, given the parsed "selectedStock" and "chartData" values.
     A missing stock or rejected chart data redirects to "/" and sets nothing;
     otherwise the stock is set and the candles become the chart's points.
     */
    method Load(storedStock: Option<LiveLtp.Row>, storedChart: ChartJson, localeString: int -> string)
      returns (nav: Option<string>)
      modifies this
      ensures storedStock.None? || !ReaderAccepts(storedChart) ==>
        nav == Some("/") && chartData == old(chartData) && stock == old(stock)
      ensures storedStock.Some? && ReaderAccepts(storedChart) ==>
        && nav == None
        && stock == storedStock
        && chartData == FormatCandles(storedChart.data.value, localeString)
    {
      if storedStock.None? || !ReaderAccepts(storedChart) {
        return Some("/");
      }
      stock := storedStock;
      chartData := FormatCandles(storedChart.data.value, localeString);
      nav := None;
    }

    /** The back button: removes only "chartData" from the store and navigates to "/layout". */
    method Back(store: LocalStorage) returns (nav: string)
      modifies store
      ensures store.items == old(store.items) - {"chartData"}
      ensures nav == "/layout"
    {
      store.RemoveItem("chartData");
      nav := "/layout";
    }
  }
}
