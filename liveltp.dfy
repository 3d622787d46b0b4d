/**
 The live quote table. Every message on the quote stream carries a full
 snapshot of quotes; the view merges it against the stored rows (all of
 `stockData`, not only the filtered rows on screen), giving each row the price
 stored before for the same symbol (`prevLivePrice`), filters the rows by a search box and colours each price by
 its direction of change.
 */
module LiveLtp {
  import opened Wrappers
  import opened Strings
  import opened Browser

  /** One instrument as pushed by the stream (the fields the views read). */
  datatype Quote = Quote(
    symbol: string,
    name: string,
    token: string,
    livePrice: int,
    volume: int,
    high52: int,
    low52: int)

  /** A displayed row: every field of the incoming quote, plus `prevLivePrice`. */
  datatype Row = Row(quote: Quote, prevLivePrice: int)

  /** The direction a price moved in, shown as green, red or white text. */
  datatype Direction = Up | Down | Flat

  // ---------------------------------------------------------------------------
  // Snapshot merge
  // ---------------------------------------------------------------------------

  /** `prevData.find(s => s.symbol === symbol)`, given as the index of the first match. */
  function FindBySymbol(rows: seq<Row>, symbol: string): (r: Option<nat>)
    ensures r.Some? ==> r.value < |rows| && rows[r.value].quote.symbol == symbol
    ensures r.Some? ==> forall j :: 0 <= j < r.value ==> rows[j].quote.symbol != symbol
    ensures r.None? ==> forall j :: 0 <= j < |rows| ==> rows[j].quote.symbol != symbol
    decreases |rows|
  {
    if |rows| == 0 then None
    else if rows[0].quote.symbol == symbol then Some(0)
    else match FindBySymbol(rows[1..], symbol)
      case None => None
      case Some(k) => Some(k + 1)
  }

  /** `{...newStock, prevLivePrice: oldStock ? oldStock.livePrice : newStock.livePrice}`. */
  function Tag(prev: seq<Row>, q: Quote): Row
  {
    match FindBySymbol(prev, q.symbol)
    case Some(k) => Row(q, prev[k].quote.livePrice)
    case None => Row(q, q.livePrice)
  }

  /** `receivedData.map(...)`: the new snapshot, each quote tagged against the stored rows (`prevData`, all of `stockData`, not the filtered ones). */
  function Merge(prev: seq<Row>, snapshot: seq<Quote>): seq<Row>
    decreases |snapshot|
  {
    if |snapshot| == 0 then [] else [Tag(prev, snapshot[0])] + Merge(prev, snapshot[1..])
  }

  lemma {:induction false} MergeLength(prev: seq<Row>, snapshot: seq<Quote>)
    ensures |Merge(prev, snapshot)| == |snapshot|
    decreases |snapshot|
  {
    if |snapshot| > 0 {
      MergeLength(prev, snapshot[1..]);
    }
  }

  lemma {:induction false} MergeAt(prev: seq<Row>, snapshot: seq<Quote>, i: nat)
    requires i < |snapshot|
    ensures |Merge(prev, snapshot)| == |snapshot|
    ensures Merge(prev, snapshot)[i] == Tag(prev, snapshot[i])
    decreases i
  {
    MergeLength(prev, snapshot);
    if i > 0 {
      MergeAt(prev, snapshot[1..], i - 1);
    }
  }

  /** The merged list has the snapshot's length and order, and each row keeps its incoming quote whole. */
  lemma MergeKeepsSnapshot(prev: seq<Row>, snapshot: seq<Quote>)
    ensures |Merge(prev, snapshot)| == |snapshot|
    ensures forall i :: 0 <= i < |snapshot| ==> Merge(prev, snapshot)[i].quote == snapshot[i]
  {
    MergeLength(prev, snapshot);
    forall i | 0 <= i < |snapshot|
      ensures Merge(prev, snapshot)[i].quote == snapshot[i]
    {
      MergeAt(prev, snapshot, i);
    }
  }

  /**
   A symbol stored before takes its previous price from the FIRST stored
   row with that symbol, and its direction compares against that price.
   */
  lemma MergeHit(prev: seq<Row>, snapshot: seq<Quote>, i: nat, k: nat)
    requires i < |snapshot| && k < |prev|
    requires prev[k].quote.symbol == snapshot[i].symbol
    requires forall j :: 0 <= j < k ==> prev[j].quote.symbol != snapshot[i].symbol
    ensures |Merge(prev, snapshot)| == |snapshot|
    ensures Merge(prev, snapshot)[i].prevLivePrice == prev[k].quote.livePrice
    ensures DirectionOf(Merge(prev, snapshot)[i]) == Up <==> snapshot[i].livePrice > prev[k].quote.livePrice
    ensures DirectionOf(Merge(prev, snapshot)[i]) == Down <==> snapshot[i].livePrice < prev[k].quote.livePrice
  {
    MergeAt(prev, snapshot, i);
  }

  /** A symbol seen for the first time keeps its own price as previous price, so it shows no direction. */
  lemma MergeMiss(prev: seq<Row>, snapshot: seq<Quote>, i: nat)
    requires i < |snapshot|
    requires forall j :: 0 <= j < |prev| ==> prev[j].quote.symbol != snapshot[i].symbol
    ensures |Merge(prev, snapshot)| == |snapshot|
    ensures Merge(prev, snapshot)[i].prevLivePrice == snapshot[i].livePrice
    ensures DirectionOf(Merge(prev, snapshot)[i]) == Flat
  {
    MergeAt(prev, snapshot, i);
  }

  /** Symbols that only the stored rows carry are dropped. */
  lemma MergeDropsStale(prev: seq<Row>, snapshot: seq<Quote>, symbol: string)
    requires forall i :: 0 <= i < |snapshot| ==> snapshot[i].symbol != symbol
    ensures forall r :: r in Merge(prev, snapshot) ==> r.quote.symbol != symbol
  {
    MergeKeepsSnapshot(prev, snapshot);
  }

  /** Merging against an empty table marks every row flat. */
  lemma MergeFromEmpty(snapshot: seq<Quote>)
    ensures |Merge([], snapshot)| == |snapshot|
    ensures forall i :: 0 <= i < |snapshot| ==> Merge([], snapshot)[i].prevLivePrice == snapshot[i].livePrice
  {
    MergeLength([], snapshot);
    forall i | 0 <= i < |snapshot|
      ensures Merge([], snapshot)[i].prevLivePrice == snapshot[i].livePrice
    {
      MergeMiss([], snapshot, i);
    }
  }

  predicate UniqueSymbols(snapshot: seq<Quote>)
  {
    forall i, j :: 0 <= i < j < |snapshot| ==> snapshot[i].symbol != snapshot[j].symbol
  }

  /**
   Receiving the same snapshot twice (with unique symbols) shows every row flat
   the second time, whatever was stored before the first.
   */
  lemma RemergeIsFlat(prev: seq<Row>, snapshot: seq<Quote>)
    requires UniqueSymbols(snapshot)
    ensures |Merge(Merge(prev, snapshot), snapshot)| == |snapshot|
    ensures forall i :: 0 <= i < |snapshot| ==>
      DirectionOf(Merge(Merge(prev, snapshot), snapshot)[i]) == Flat
  {
    var shown := Merge(prev, snapshot);
    MergeKeepsSnapshot(prev, snapshot);
    MergeLength(shown, snapshot);
    forall i | 0 <= i < |snapshot|
      ensures DirectionOf(Merge(shown, snapshot)[i]) == Flat
    {
      MergeHit(shown, snapshot, i, i);
    }
  }

  /** With a repeated symbol, the second copy takes the first copy's price: uniqueness is needed above. */
  lemma RepeatedSymbolFlickers()
    ensures var s := [Quote("A", "A", "1", 100, 0, 0, 0), Quote("A", "A", "1", 200, 0, 0, 0)];
            DirectionOf(Merge(Merge([], s), s)[1]) == Up
  {
    var s := [Quote("A", "A", "1", 100, 0, 0, 0), Quote("A", "A", "1", 200, 0, 0, 0)];
    MergeMiss([], s, 0);
    MergeMiss([], s, 1);
    var shown := Merge([], s);
    MergeHit(shown, s, 1, 0);
  }

  /** A persisting symbol carries the old price forward; a new one starts flat. */
  lemma MergeExample()
    ensures var tcs := Quote("TCS", "Tata Consultancy", "11536", 100, 0, 0, 0);
            var tcs' := tcs.(livePrice := 105);
            var infy := Quote("INFY", "Infosys", "1594", 50, 0, 0, 0);
            Merge([Row(tcs, 100)], [tcs', infy]) == [Row(tcs', 100), Row(infy, 50)]
  {
    var tcs := Quote("TCS", "Tata Consultancy", "11536", 100, 0, 0, 0);
    var tcs' := tcs.(livePrice := 105);
    var infy := Quote("INFY", "Infosys", "1594", 50, 0, 0, 0);
    MergeHit([Row(tcs, 100)], [tcs', infy], 0, 0);
    MergeMiss([Row(tcs, 100)], [tcs', infy], 1);
    MergeKeepsSnapshot([Row(tcs, 100)], [tcs', infy]);
  }

  // ---------------------------------------------------------------------------
  // Price direction
  // ---------------------------------------------------------------------------

  /** `priceColor`: exactly one of rising, falling or unchanged. */
  function DirectionOf(row: Row): (d: Direction)
    ensures d == Up <==> row.quote.livePrice > row.prevLivePrice
    ensures d == Down <==> row.quote.livePrice < row.prevLivePrice
    ensures d == Flat <==> row.quote.livePrice == row.prevLivePrice
  {
    if row.quote.livePrice > row.prevLivePrice then Up
    else if row.quote.livePrice < row.prevLivePrice then Down
    else Flat
  }

  /** The CSS classes the table uses for each direction. */
  function PriceColor(d: Direction): string
  {
    match d
    case Up => "text-green-400 font-semibold"
    case Down => "text-red-400 font-semibold"
    case Flat => "text-white"
  }

  /** A row's price is green exactly when it rose, red exactly when it fell, and white otherwise. */
  lemma PriceColorOfRow(row: Row)
    ensures PriceColor(DirectionOf(row)) == "text-green-400 font-semibold" <==> row.quote.livePrice > row.prevLivePrice
    ensures PriceColor(DirectionOf(row)) == "text-red-400 font-semibold" <==> row.quote.livePrice < row.prevLivePrice
    ensures PriceColor(DirectionOf(row)) == "text-white" <==> row.quote.livePrice == row.prevLivePrice
  {
  }

  // ---------------------------------------------------------------------------
  // Search filter
  // ---------------------------------------------------------------------------

  /** The lower-cased name or symbol contains the lower-cased query. */
  predicate Matches(row: Row, query: string)
  {
    Contains(Lower(row.quote.name), Lower(query)) || Contains(Lower(row.quote.symbol), Lower(query))
  }

  /** `stockData.filter(...)`. */
  function Filter(rows: seq<Row>, query: string): seq<Row>
    decreases |rows|
  {
    if |rows| == 0 then []
    else (if Matches(rows[0], query) then [rows[0]] else []) + Filter(rows[1..], query)
  }

  /** `a` is `b` with some elements left out, order kept. */
  ghost predicate IsSubsequence<T>(a: seq<T>, b: seq<T>)
    decreases |b|
  {
    |a| == 0 || (|b| > 0 && ((a[0] == b[0] && IsSubsequence(a[1..], b[1..])) || IsSubsequence(a, b[1..])))
  }

  lemma SubsequenceCons<T>(a: seq<T>, x: T, b: seq<T>)
    requires IsSubsequence(a, b)
    ensures IsSubsequence(a, [x] + b)
  {
    assert ([x] + b)[1..] == b;
  }

  /** Every copy of a matching row is kept, and no other row. */
  lemma {:induction false} FilterCounts(rows: seq<Row>, query: string)
    ensures forall r :: multiset(Filter(rows, query))[r] == if Matches(r, query) then multiset(rows)[r] else 0
    decreases |rows|
  {
    if |rows| > 0 {
      FilterCounts(rows[1..], query);
      assert rows == [rows[0]] + rows[1..];
    }
  }

  /** A row is shown exactly when it is in the table and matches the query. */
  lemma FilterMembership(rows: seq<Row>, query: string)
    ensures forall r :: r in Filter(rows, query) <==> r in rows && Matches(r, query)
  {
    FilterCounts(rows, query);
    forall r
      ensures r in Filter(rows, query) <==> r in rows && Matches(r, query)
    {
      assert r in Filter(rows, query) <==> multiset(Filter(rows, query))[r] > 0;
      assert r in rows <==> multiset(rows)[r] > 0;
    }
  }

  /** The shown rows keep the table's order. */
  lemma {:induction false} FilterSubsequence(rows: seq<Row>, query: string)
    ensures IsSubsequence(Filter(rows, query), rows)
    decreases |rows|
  {
    if |rows| > 0 {
      FilterSubsequence(rows[1..], query);
      var rest := Filter(rows[1..], query);
      if Matches(rows[0], query) {
        assert Filter(rows, query) == [rows[0]] + rest;
        assert ([rows[0]] + rest)[1..] == rest;
      } else {
        assert Filter(rows, query) == rest;
        SubsequenceCons(rest, rows[0], rows[1..]);
        assert [rows[0]] + rows[1..] == rows;
      }
    }
  }

  /** An empty search box shows the whole table. */
  lemma {:induction false} FilterEmptyQuery(rows: seq<Row>)
    ensures Filter(rows, "") == rows
    decreases |rows|
  {
    if |rows| > 0 {
      ContainsEmpty(Lower(rows[0].quote.name));
      assert Lower("") == "";
      FilterEmptyQuery(rows[1..]);
      assert [rows[0]] + rows[1..] == rows;
    }
  }

  /** A query whose lower-cased form contains another's matches fewer rows. */
  lemma MatchesNarrows(row: Row, wide: string, narrow: string)
    requires Contains(Lower(narrow), Lower(wide))
    ensures Matches(row, narrow) ==> Matches(row, wide)
  {
    if Contains(Lower(row.quote.name), Lower(narrow)) {
      ContainsTransitive(Lower(row.quote.name), Lower(narrow), Lower(wide));
    }
    if Contains(Lower(row.quote.symbol), Lower(narrow)) {
      ContainsTransitive(Lower(row.quote.symbol), Lower(narrow), Lower(wide));
    }
  }

  /** Refining the query shows a subsequence of what the broader query showed. */
  lemma {:induction false} FilterNarrows(rows: seq<Row>, wide: string, narrow: string)
    requires Contains(Lower(narrow), Lower(wide))
    ensures IsSubsequence(Filter(rows, narrow), Filter(rows, wide))
    decreases |rows|
  {
    if |rows| > 0 {
      FilterNarrows(rows[1..], wide, narrow);
      MatchesNarrows(rows[0], wide, narrow);
      var n := Filter(rows[1..], narrow);
      var w := Filter(rows[1..], wide);
      if Matches(rows[0], narrow) {
        assert Filter(rows, narrow) == [rows[0]] + n;
        assert Filter(rows, wide) == [rows[0]] + w;
        assert ([rows[0]] + n)[1..] == n;
        assert ([rows[0]] + w)[1..] == w;
      } else if Matches(rows[0], wide) {
        assert Filter(rows, narrow) == n;
        assert Filter(rows, wide) == [rows[0]] + w;
        SubsequenceCons(n, rows[0], w);
      } else {
        assert Filter(rows, narrow) == n;
        assert Filter(rows, wide) == w;
      }
    }
  }

  /** Typing more characters into the search box only removes rows. */
  lemma TypingNarrows(rows: seq<Row>, typed: string, more: string)
    ensures IsSubsequence(Filter(rows, typed + more), Filter(rows, typed))
  {
    LowerAppend(typed, more);
    assert IsPrefix(Lower(typed), Lower(typed + more));
    FilterNarrows(rows, typed, typed + more);
  }

  // ---------------------------------------------------------------------------
  // The view's state
  // ---------------------------------------------------------------------------

  /** The state of the live quote view: the stored rows (`stockData`), the search box and whether a stream is open. */
  class LiveQuoteView {
    var stockData: seq<Row>
    var searchQuery: string
    var subscribed: bool

    constructor ()
      ensures stockData == [] && searchQuery == "" && !subscribed
    {
      stockData := [];
      searchQuery := "";
      subscribed := false;
    }

    /**
     The effect run when the context token changes: the previous stream is
     closed, and a new one is opened only for a truthy token. The rows stay.
     */
    method OnTokenChange(token: Option<string>)
      modifies this
      ensures subscribed == Truthy(token)
      ensures stockData == old(stockData) && searchQuery == old(searchQuery)
    {
      subscribed := false;
      if !Truthy(token) {
        return;
      }
      subscribed := true;
    }

    /**
     `ws.onmessage`: `payload` is the parsed message, `None` when `JSON.parse`
     throws. A parsed snapshot replaces the rows by its merge against them; a
     failed parse, or no open stream, changes nothing.
     */
    method OnMessage(payload: Option<seq<Quote>>)
      modifies this
      ensures stockData == if subscribed && payload.Some? then Merge(old(stockData), payload.value) else old(stockData)
      ensures subscribed == old(subscribed) && searchQuery == old(searchQuery)
    {
      if !subscribed {
        return;
      }
      match payload
      case None =>
      case Some(snapshot) =>
        stockData := Merge(stockData, snapshot);
    }

    method SetSearchQuery(query: string)
      modifies this
      ensures searchQuery == query
      ensures stockData == old(stockData) && subscribed == old(subscribed)
    {
      searchQuery := query;
    }

    /** `filteredData`: the rows the table shows. */
    function FilteredData(): seq<Row>
      reads this
    {
      Filter(stockData, searchQuery)
    }
  }
}
