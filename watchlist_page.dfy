/** The watchlist page: each watchlist entry joined with the stock of the same
    symbol (entries without one are dropped), and the summary figures over
    the joined entries. */
module WatchlistPage {
  import opened Schema
  import opened Seqs

  /** `{ ...item, stockData }` for an entry whose stock was found. */
  datatype JoinedItem = JoinedItem(item: WatchlistItem, stockData: StockData)

  /** The entry's symbol is among the loaded stocks. */
  function Listed(stocks: seq<StockData>): WatchlistItem -> bool
  {
    (w: WatchlistItem) => FindBySymbol(stocks, w.symbol).Some?
  }

  function ItemsOf(joined: seq<JoinedItem>): seq<WatchlistItem>
  {
    if joined == [] then [] else [joined[0].item] + ItemsOf(joined[1..])
  }

  /** `watchlistWithStockData`: every entry paired with the first stock of its
      symbol, the entries with no such stock dropped, order kept. */
  function Join(items: seq<WatchlistItem>, stocks: seq<StockData>): (r: seq<JoinedItem>)
    ensures |r| <= |items|
    ensures ItemsOf(r) == Filter(items, Listed(stocks))
    ensures forall i :: 0 <= i < |r| ==> FindBySymbol(stocks, r[i].item.symbol) == Some(r[i].stockData)
  {
    if items == [] then []
    else
      match FindBySymbol(stocks, items[0].symbol)
      case Some(s) => [JoinedItem(items[0], s)] + Join(items[1..], stocks)
      case None => Join(items[1..], stocks)
  }

  /** The joined entries are exactly the entries whose symbol is listed, each
      as often as in the watchlist and in its order. */
  lemma JoinExact(items: seq<WatchlistItem>, stocks: seq<StockData>)
    ensures forall w :: w in ItemsOf(Join(items, stocks)) <==> w in items && FindBySymbol(stocks, w.symbol).Some?
    ensures forall w :: multiset(ItemsOf(Join(items, stocks)))[w] == if FindBySymbol(stocks, w.symbol).Some? then multiset(items)[w] else 0
    ensures Subsequence(ItemsOf(Join(items, stocks)), items)
  {
    FilterMembership(items, Listed(stocks));
    FilterMultiset(items, Listed(stocks));
    FilterSubsequence(items, Listed(stocks));
  }

  /** Each joined entry carries a loaded stock of its own symbol. */
  lemma JoinPairsOwnStock(items: seq<WatchlistItem>, stocks: seq<StockData>)
    ensures forall i :: 0 <= i < |Join(items, stocks)| ==>
      Join(items, stocks)[i].stockData in stocks && Join(items, stocks)[i].stockData.symbol == Join(items, stocks)[i].item.symbol
  {
  }

  /** When every entry's symbol is listed nothing is dropped. */
  lemma JoinKeepsListed(items: seq<WatchlistItem>, stocks: seq<StockData>)
    requires forall i :: 0 <= i < |items| ==> FindBySymbol(stocks, items[i].symbol).Some?
    ensures |Join(items, stocks)| == |items|
  {
    FilterKeepsAll(items, Listed(stocks));
    ItemsOfLength(Join(items, stocks));
  }

  lemma {:induction false} ItemsOfLength(joined: seq<JoinedItem>)
    ensures |ItemsOf(joined)| == |joined|
  {
    if joined != [] {
      ItemsOfLength(joined[1..]);
    }
  }

  // ---------------------------------------------------------------------------
  // Summary figures

  /** `reduce((sum, item) => sum + item.stockData.price, 0)`. */
  function TotalValue(joined: seq<JoinedItem>): real
  {
    if joined == [] then 0.0 else TotalValue(joined[..|joined| - 1]) + joined[|joined| - 1].stockData.price
  }

  /** `reduce((sum, item) => sum + item.stockData.change, 0)`. */
  function TotalChange(joined: seq<JoinedItem>): real
  {
    if joined == [] then 0.0 else TotalChange(joined[..|joined| - 1]) + joined[|joined| - 1].stockData.change
  }

  /** The totals add up over a split of the list, so each is the sum of its column. */
  lemma {:induction false} TotalsSplit(a: seq<JoinedItem>, b: seq<JoinedItem>)
    ensures TotalValue(a + b) == TotalValue(a) + TotalValue(b)
    ensures TotalChange(a + b) == TotalChange(a) + TotalChange(b)
    decreases |b|
  {
    if b != [] {
      var n := |b| - 1;
      assert (a + b)[..|a + b| - 1] == a + b[..n];
      TotalsSplit(a, b[..n]);
    } else {
      assert a + b == a;
    }
  }

  /** `Math.max(...changePercents)`: `None` for no entries, where the page
      would get -Infinity and hides the figure. */
  function BestPerformer(joined: seq<JoinedItem>): (r: Option<real>)
    ensures r.None? <==> joined == []
    ensures r.Some? ==> exists i :: 0 <= i < |joined| && joined[i].stockData.changePercent == r.value
    ensures r.Some? ==> forall i :: 0 <= i < |joined| ==> joined[i].stockData.changePercent <= r.value
  {
    if joined == [] then None
    else
      var v := joined[0].stockData.changePercent;
      match BestPerformer(joined[1..])
      case None => Some(v)
      case Some(w) => Some(if v >= w then v else w)
  }

  /** `Math.min(...changePercents)`: `None` for no entries, where the page
      would get Infinity and hides the figure. */
  function WorstPerformer(joined: seq<JoinedItem>): (r: Option<real>)
    ensures r.None? <==> joined == []
    ensures r.Some? ==> exists i :: 0 <= i < |joined| && joined[i].stockData.changePercent == r.value
    ensures r.Some? ==> forall i :: 0 <= i < |joined| ==> r.value <= joined[i].stockData.changePercent
  {
    if joined == [] then None
    else
      var v := joined[0].stockData.changePercent;
      match WorstPerformer(joined[1..])
      case None => Some(v)
      case Some(w) => Some(if v <= w then v else w)
  }

  /** Whenever the summary is shown, the worst performer is no better than the best. */
  lemma WorstAtMostBest(joined: seq<JoinedItem>)
    requires joined != []
    ensures WorstPerformer(joined).value <= BestPerformer(joined).value
  {
    assert WorstPerformer(joined).value <= joined[0].stockData.changePercent;
  }
}
