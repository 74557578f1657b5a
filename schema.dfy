/** The record shapes shared by server and client: the `stock_data` and
    `watchlist_items` rows, the insert shapes that omit the store-assigned
    columns, and the table's sort configuration. */
module Schema {

  datatype Option<T> = None | Some(value: T)

  /** Row identifiers. The store draws them from a counter (see Storage). */
  type RowId = nat

  /** Logical timestamps: the store's clock only moves forward. */
  type Timestamp = nat

  /** A `stock_data` row. `symbol` is the table's unique key; `marketCap`
      and `sector` are the two nullable columns. */
  datatype StockData = StockData(
    id: RowId,
    symbol: string,
    name: string,
    price: real,
    change: real,
    changePercent: real,
    volume: int,
    marketCap: Option<real>,
    sector: Option<string>,
    lastUpdated: Timestamp)

  /** What a caller may write into `stock_data`: every column except `id` and
      `lastUpdated`, which the store assigns. An absent optional column is `None`,
      which the store keeps as SQL null. */
  datatype InsertStockData = InsertStockData(
    symbol: string,
    name: string,
    price: real,
    change: real,
    changePercent: real,
    volume: int,
    marketCap: Option<real>,
    sector: Option<string>)

  /** A `watchlist_items` row. Nothing in the table makes (userId, symbol) unique. */
  datatype WatchlistItem = WatchlistItem(
    id: RowId,
    userId: string,
    symbol: string,
    name: string,
    sector: Option<string>,
    addedAt: Timestamp)

  /** What a caller may write into `watchlist_items`: every column except `id` and `addedAt`. */
  datatype InsertWatchlistItem = InsertWatchlistItem(
    userId: string,
    symbol: string,
    name: string,
    sector: Option<string>)

  /** `keyof StockData`: the columns a table can be sorted by. */
  datatype SortKey = Id | Symbol | Name | Price | Change | ChangePercent | Volume | MarketCap | Sector | LastUpdated

  datatype Direction = Asc | Desc

  /** The table's sort state: no column (keep the server's order) or one column and a direction. */
  datatype SortConfig = SortConfig(key: Option<SortKey>, direction: Direction)

  /** The row the store writes for `s` under identifier `id` at time `now`. */
  function StockRow(id: RowId, s: InsertStockData, now: Timestamp): (r: StockData)
    ensures ToInsert(r) == s
    ensures r.id == id && r.lastUpdated == now
  {
    StockData(id, s.symbol, s.name, s.price, s.change, s.changePercent, s.volume, s.marketCap, s.sector, now)
  }

  /** The caller-supplied columns of a stored row. */
  function ToInsert(r: StockData): InsertStockData
  {
    InsertStockData(r.symbol, r.name, r.price, r.change, r.changePercent, r.volume, r.marketCap, r.sector)
  }

  /** The row the store writes for a watchlist insert. */
  function WatchlistRow(id: RowId, item: InsertWatchlistItem, now: Timestamp): (r: WatchlistItem)
    ensures r.userId == item.userId && r.symbol == item.symbol && r.name == item.name && r.sector == item.sector
    ensures r.id == id && r.addedAt == now
  {
    WatchlistItem(id, item.userId, item.symbol, item.name, item.sector, now)
  }

  /** The position of the first row whose symbol is exactly `symbol`. */
  function IndexOfSymbol(rows: seq<StockData>, symbol: string): (r: Option<nat>)
    ensures r.Some? ==> r.value < |rows| && rows[r.value].symbol == symbol
    ensures r.Some? ==> forall k :: 0 <= k < r.value ==> rows[k].symbol != symbol
    ensures r.None? ==> forall k :: 0 <= k < |rows| ==> rows[k].symbol != symbol
  {
    IndexFrom(rows, symbol, 0)
  }

  /** The first position at or after `i` holding `symbol`: the scan of a `WHERE symbol = …` lookup. */
  function IndexFrom(rows: seq<StockData>, symbol: string, i: nat): (r: Option<nat>)
    requires i <= |rows|
    ensures r.Some? ==> i <= r.value < |rows| && rows[r.value].symbol == symbol
    ensures r.Some? ==> forall k :: i <= k < r.value ==> rows[k].symbol != symbol
    ensures r.None? ==> forall k :: i <= k < |rows| ==> rows[k].symbol != symbol
    decreases |rows| - i
  {
    if i == |rows| then None
    else if rows[i].symbol == symbol then Some(i)
    else IndexFrom(rows, symbol, i + 1)
  }

  /** The first row whose symbol is exactly `symbol`, or `None`: both the store's
      `WHERE symbol = …` point lookup and the client's `find` by symbol. */
  function FindBySymbol(rows: seq<StockData>, symbol: string): (r: Option<StockData>)
  {
    match IndexOfSymbol(rows, symbol)
    case None => None
    case Some(k) => Some(rows[k])
  }
}
