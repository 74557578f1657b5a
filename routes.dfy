/** The HTTP handlers layered on the store: the symbol lookup, the simulated
    price refresh, and adding and removing watchlist entries for the fixed
    demo user. Each handler is a method on the one `DatabaseStorage`. */
module Routes {
  import opened Schema
  import opened Seqs
  import opened Text
  import opened Storage

  /** Every watchlist request acts for this user. */
  const DefaultUser: string := "default-user"

  /** A handler's answer: a JSON body with status 200, or a status and message. */
  datatype Response<T> = Ok(body: T) | Error(status: nat, message: string)

  // ---------------------------------------------------------------------------
  // GET /api/stocks/:symbol

  /** Looks the upper-cased path symbol up; 404 when no row has it. */
  method GetStock(storage: DatabaseStorage, symbol: string) returns (r: Response<StockData>)
    ensures r.Ok? ==> r.body in storage.stocks && r.body.symbol == ToUpper(symbol)
    ensures r.Error? ==> r == Error(404, "Stock not found")
    ensures r.Error? ==> forall k :: 0 <= k < |storage.stocks| ==> storage.stocks[k].symbol != ToUpper(symbol)
  {
    var found := storage.GetStockBySymbol(ToUpper(symbol));
    match found {
      case None => r := Error(404, "Stock not found");
      case Some(s) => r := Ok(s);
    }
  }

  /** The lookup ignores the case of the path: a symbol and its upper-cased
      form find the same row. */
  lemma LookupIgnoresCase(stocks: seq<StockData>, symbol: string)
    ensures FindBySymbol(stocks, ToUpper(ToUpper(symbol))) == FindBySymbol(stocks, ToUpper(symbol))
  {
    ToUpperIdempotent(symbol);
  }

  // ---------------------------------------------------------------------------
  // POST /api/stocks/refresh

  /** The four `Math.random()` values drawn for one stock, in evaluation order. */
  datatype Draw = Draw(price: real, change: real, changePercent: real, volume: real)

  /** `Math.random()` lies in [0, 1). */
  predicate ValidDraw(d: Draw)
  {
    && 0.0 <= d.price < 1.0
    && 0.0 <= d.change < 1.0
    && 0.0 <= d.changePercent < 1.0
    && 0.0 <= d.volume < 1.0
  }

  /** The refreshed quote for one stock: a price moved by at least -5 and
      less than +5, a fresh change, change percentage and volume, and the
      listing columns (symbol, name, market cap, sector) copied. */
  function RefreshQuote(s: StockData, d: Draw): (q: InsertStockData)
    ensures q.symbol == s.symbol && q.name == s.name && q.marketCap == s.marketCap && q.sector == s.sector
    ensures ValidDraw(d) ==> s.price - 5.0 <= q.price < s.price + 5.0
    ensures ValidDraw(d) ==> -2.5 <= q.change < 2.5
    ensures ValidDraw(d) ==> -1.5 <= q.changePercent < 1.5
    ensures ValidDraw(d) ==> 10000000 <= q.volume <= 59999999
  {
    InsertStockData(
      s.symbol,
      s.name,
      s.price + (d.price - 0.5) * 10.0,
      (d.change - 0.5) * 5.0,
      (d.changePercent - 0.5) * 3.0,
      (d.volume * 50000000.0).Floor + 10000000,
      s.marketCap,
      s.sector)
  }

  /** `stocks.map(...)`: the refreshed quote of each stock, in order. */
  function Refreshed(stocks: seq<StockData>, draws: seq<Draw>): (r: seq<InsertStockData>)
    requires |draws| == |stocks|
    ensures |r| == |stocks|
    ensures forall i :: 0 <= i < |r| ==> r[i] == RefreshQuote(stocks[i], draws[i])
  {
    if stocks == [] then []
    else [RefreshQuote(stocks[0], draws[0])] + Refreshed(stocks[1..], draws[1..])
  }

  /** `after` is `before` refreshed: same row, same listing, quote columns
      within the ranges a refresh can produce. */
  predicate RefreshedFrom(before: StockData, after: StockData)
  {
    && after.id == before.id
    && after.symbol == before.symbol
    && after.name == before.name
    && after.marketCap == before.marketCap
    && after.sector == before.sector
    && before.price - 5.0 <= after.price < before.price + 5.0
    && -2.5 <= after.change < 2.5
    && -1.5 <= after.changePercent < 1.5
    && 10000000 <= after.volume <= 59999999
  }

  /** Writing back the refreshed quotes of any ordering of the table rewrites
      every row in place: no row is added or lost, and each keeps its id and
      listing while its quote moves within the refresh ranges and its
      timestamp is one of the batch's write times. */
  lemma RefreshKeepsListing(rows: seq<StockData>, listing: seq<StockData>, draws: seq<Draw>, id: RowId, now: Timestamp)
    requires UniqueSymbols(rows)
    requires multiset(listing) == multiset(rows)
    requires |draws| == |listing|
    requires forall k :: 0 <= k < |draws| ==> ValidDraw(draws[k])
    ensures |UpsertAll(rows, Refreshed(listing, draws), id, now)| == |rows|
    ensures forall i :: 0 <= i < |rows| ==> RefreshedFrom(rows[i], UpsertAll(rows, Refreshed(listing, draws), id, now)[i])
    ensures forall i :: 0 <= i < |rows| ==> now <= UpsertAll(rows, Refreshed(listing, draws), id, now)[i].lastUpdated < now + |rows|
  {
    var list := Refreshed(listing, draws);
    forall k | 0 <= k < |list| ensures FindBySymbol(rows, list[k].symbol).Some? {
      assert listing[k] in multiset(rows);
    }
    UpsertAllInPlace(rows, list, id, now);
    var after := UpsertAll(rows, list, id, now);
    assert |listing| == |multiset(listing)| == |rows|;
    forall i | 0 <= i < |rows| ensures RefreshedFrom(rows[i], after[i]) && now <= after[i].lastUpdated < now + |rows| {
      UpsertAllRewritesRow(rows, list, id, now, i);
      RefreshRow(rows, listing, draws, i);
      UpsertAllStampsRow(rows, list, id, now, i);
      assert rows[i] in multiset(listing);
      var j :| 0 <= j < |listing| && listing[j] == rows[i];
      assert LastWith(list, rows[i].symbol).value == RefreshQuote(rows[i], draws[j]);
    }
  }

  /** The batch's last write for row `i`'s symbol is row `i`'s own refreshed
      quote, made with the draw at row `i`'s position in the listing. */
  lemma RefreshRow(rows: seq<StockData>, listing: seq<StockData>, draws: seq<Draw>, i: nat)
    requires UniqueSymbols(rows)
    requires multiset(listing) == multiset(rows)
    requires |draws| == |listing|
    requires i < |rows|
    ensures LastWith(Refreshed(listing, draws), rows[i].symbol).Some?
    ensures forall j :: 0 <= j < |listing| && listing[j] == rows[i] ==> LastWith(Refreshed(listing, draws), rows[i].symbol).value == RefreshQuote(rows[i], draws[j])
  {
    var list := Refreshed(listing, draws);
    ReorderKeepsUniqueSymbols(rows, listing);
    assert DistinctSymbols(list);
    assert rows[i] in multiset(listing);
    var j0 :| 0 <= j0 < |listing| && listing[j0] == rows[i];
    LastWithDistinct(list, j0);
    forall j | 0 <= j < |listing| && listing[j] == rows[i]
      ensures LastWith(list, rows[i].symbol).value == RefreshQuote(rows[i], draws[j])
    {
      LastWithDistinct(list, j);
    }
  }

  /** Reads the table in symbol order, writes back a refreshed quote for each
      row in that order (the `k`-th row with the `k`-th draw), and answers with
      the table as re-read after the writes. */
  method RefreshStocks(storage: DatabaseStorage, draws: seq<Draw>) returns (r: seq<StockData>)
    requires storage.Valid()
    requires |draws| == |storage.stocks|
    requires forall k :: 0 <= k < |draws| ==> ValidDraw(draws[k])
    modifies storage
    ensures storage.Valid()
    ensures storage.stocks == UpsertAll(old(storage.stocks), Refreshed(SortBySymbol(old(storage.stocks)), draws), old(storage.nextId), old(storage.clock))
    ensures storage.nextId == old(storage.nextId) + |draws| && storage.clock == old(storage.clock) + |draws|
    ensures |storage.stocks| == |old(storage.stocks)|
    ensures forall i :: 0 <= i < |storage.stocks| ==> RefreshedFrom(old(storage.stocks)[i], storage.stocks[i])
    ensures forall i :: 0 <= i < |storage.stocks| ==> old(storage.clock) <= storage.stocks[i].lastUpdated < storage.clock
    ensures SortedBySymbol(r) && multiset(r) == multiset(storage.stocks)
    ensures storage.watchlist == old(storage.watchlist)
  {
    var listing := storage.GetAllStocks();
    assert |listing| == |multiset(listing)| == |storage.stocks|;
    ghost var rows, id, now := storage.stocks, storage.nextId, storage.clock;
    storage.UpdateStockPrices(Refreshed(listing, draws));
    RefreshKeepsListing(rows, listing, draws, id, now);
    r := storage.GetAllStocks();
  }

  // ---------------------------------------------------------------------------
  // POST /api/watchlist and DELETE /api/watchlist/:symbol

  /** The request body's three fields; a field the client left out is `None`. */
  datatype AddRequest = AddRequest(symbol: Option<string>, name: Option<string>, sector: Option<string>)

  /** A string field is truthy: present and not empty. */
  predicate Present(v: Option<string>)
  {
    v.Some? && v.value != ""
  }

  /** `items.some(item => item.symbol === symbol)`. */
  function HasSymbol(items: seq<WatchlistItem>, symbol: string): (r: bool)
    ensures r <==> exists k :: 0 <= k < |items| && items[k].symbol == symbol
  {
    if items == [] then false
    else items[0].symbol == symbol || HasSymbol(items[1..], symbol)
  }

  /** At most one of `userId`'s entries per symbol. */
  ghost predicate DistinctSymbolsFor(items: seq<WatchlistItem>, userId: string)
  {
    forall i, j :: 0 <= i < j < |items| && items[i].userId == userId && items[j].userId == userId ==>
      items[i].symbol != items[j].symbol
  }

  /** Appending an entry whose symbol the user does not have yet keeps the
      user's symbols distinct. */
  lemma AppendKeepsDistinct(items: seq<WatchlistItem>, userId: string, w: WatchlistItem)
    requires DistinctSymbolsFor(items, userId)
    requires !HasSymbol(ItemsOfUser(items, userId), w.symbol)
    ensures DistinctSymbolsFor(items + [w], userId)
  {
    ItemsOfUserExact(items, userId);
    forall k | 0 <= k < |items| && items[k].userId == userId ensures items[k].symbol != w.symbol {
      assert items[k] in ItemsOfUser(items, userId);
    }
  }

  /** Deleting entries keeps the user's symbols distinct. */
  lemma {:induction false} FilterKeepsDistinct(items: seq<WatchlistItem>, userId: string, p: WatchlistItem -> bool)
    requires DistinctSymbolsFor(items, userId)
    ensures DistinctSymbolsFor(Filter(items, p), userId)
  {
    if items != [] {
      FilterKeepsDistinct(items[1..], userId, p);
      FilterMembership(items[1..], p);
      var rest := Filter(items[1..], p);
      if items[0].userId == userId {
        forall j | 0 <= j < |rest| && rest[j].userId == userId ensures rest[j].symbol != items[0].symbol {
          assert rest[j] in items[1..];
        }
      }
    }
  }

  /** Validates the body (400), refuses a symbol the demo user already has
      (409), and otherwise stores the entry with its symbol upper-cased. */
  method PostWatchlist(storage: DatabaseStorage, req: AddRequest) returns (r: Response<WatchlistItem>)
    requires storage.Valid()
    modifies storage
    ensures storage.Valid()
    ensures !Present(req.symbol) || !Present(req.name) ==>
      r == Error(400, "Symbol and name are required") && unchanged(storage)
    ensures Present(req.symbol) && Present(req.name) && HasSymbol(ItemsOfUser(old(storage.watchlist), DefaultUser), ToUpper(req.symbol.value)) ==>
      r == Error(409, "Stock is already in your watchlist") && unchanged(storage)
    ensures Present(req.symbol) && Present(req.name) && !HasSymbol(ItemsOfUser(old(storage.watchlist), DefaultUser), ToUpper(req.symbol.value)) ==>
      && r == Ok(WatchlistRow(old(storage.nextId), InsertWatchlistItem(DefaultUser, ToUpper(req.symbol.value), req.name.value, req.sector), old(storage.clock)))
      && storage.watchlist == old(storage.watchlist) + [r.body]
      && storage.stocks == old(storage.stocks)
      && storage.nextId == old(storage.nextId) + 1 && storage.clock == old(storage.clock) + 1
    ensures DistinctSymbolsFor(old(storage.watchlist), DefaultUser) ==> DistinctSymbolsFor(storage.watchlist, DefaultUser)
  {
    if !Present(req.symbol) || !Present(req.name) {
      return Error(400, "Symbol and name are required");
    }
    var existing := storage.GetWatchlistByUserId(DefaultUser);
    assert existing == ItemsOfUser(storage.watchlist, DefaultUser);
    if HasSymbol(existing, ToUpper(req.symbol.value)) {
      return Error(409, "Stock is already in your watchlist");
    }
    ghost var before := storage.watchlist;
    var w := storage.AddToWatchlist(InsertWatchlistItem(DefaultUser, ToUpper(req.symbol.value), req.name.value, req.sector));
    if DistinctSymbolsFor(before, DefaultUser) {
      AppendKeepsDistinct(before, DefaultUser, w);
    }
    r := Ok(w);
  }

  /** Deletes the demo user's entries for the upper-cased symbol and reports
      success whether or not any entry matched. */
  method DeleteWatchlist(storage: DatabaseStorage, symbol: string) returns (message: string)
    requires storage.Valid()
    modifies storage
    ensures storage.Valid()
    ensures message == "Removed from watchlist"
    ensures storage.watchlist == RemoveMatching(old(storage.watchlist), DefaultUser, ToUpper(symbol))
    ensures storage.stocks == old(storage.stocks)
    ensures storage.nextId == old(storage.nextId) && storage.clock == old(storage.clock)
    ensures DistinctSymbolsFor(old(storage.watchlist), DefaultUser) ==> DistinctSymbolsFor(storage.watchlist, DefaultUser)
  {
    ghost var before := storage.watchlist;
    storage.RemoveFromWatchlist(DefaultUser, ToUpper(symbol));
    if DistinctSymbolsFor(before, DefaultUser) {
      FilterKeepsDistinct(before, DefaultUser, Unmatched(DefaultUser, ToUpper(symbol)));
    }
    message := "Removed from watchlist";
  }
}
