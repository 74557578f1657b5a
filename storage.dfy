/** The data-access layer: the `stock_data` and `watchlist_items` tables kept
    in memory by `DatabaseStorage`, with the table-level functions that specify
    what each of its methods does to them. */
module Storage {
  import opened Schema
  import opened Seqs
  import opened Text

  // ---------------------------------------------------------------------------
  // stock_data

  /** The `UNIQUE` constraint on `stock_data.symbol`. */
  ghost predicate UniqueSymbols(rows: seq<StockData>)
  {
    forall i, j :: 0 <= i < j < |rows| ==> rows[i].symbol != rows[j].symbol
  }

  /** The primary key of `stock_data`. */
  ghost predicate UniqueStockIds(rows: seq<StockData>)
  {
    forall i, j :: 0 <= i < j < |rows| ==> rows[i].id != rows[j].id
  }

  /** `createOrUpdateStock(s)` on the table: overwrite every caller-supplied
      column of the row with `s.symbol` (keeping its id) and stamp it with
      `now`, or append a new row with identifier `id`. */
  function UpsertRow(rows: seq<StockData>, s: InsertStockData, id: RowId, now: Timestamp): seq<StockData>
  {
    match IndexOfSymbol(rows, s.symbol)
    case Some(k) => rows[k := StockRow(rows[k].id, s, now)]
    case None => rows + [StockRow(id, s, now)]
  }

  /** After an upsert the row found under the written symbol carries every
      column of `s` and the write's timestamp, and keeps the previous row's id
      or, when the symbol was new, takes the fresh `id`. */
  lemma UpsertRowStores(rows: seq<StockData>, s: InsertStockData, id: RowId, now: Timestamp)
    ensures FindBySymbol(rows, s.symbol).Some? ==>
      FindBySymbol(UpsertRow(rows, s, id, now), s.symbol) == Some(StockRow(FindBySymbol(rows, s.symbol).value.id, s, now))
    ensures FindBySymbol(rows, s.symbol).None? ==>
      FindBySymbol(UpsertRow(rows, s, id, now), s.symbol) == Some(StockRow(id, s, now))
  {
    var after := UpsertRow(rows, s, id, now);
    match IndexOfSymbol(rows, s.symbol)
    case Some(k) =>
      assert after[k] == StockRow(rows[k].id, s, now);
      assert IndexOfSymbol(after, s.symbol) == Some(k);
    case None =>
      assert after[|rows|] == StockRow(id, s, now);
      assert IndexOfSymbol(after, s.symbol) == Some(|rows|);
  }

  /** An upsert keeps the symbol column unique, so the row above is the only
      one with its symbol. */
  lemma UpsertRowUnique(rows: seq<StockData>, s: InsertStockData, id: RowId, now: Timestamp)
    requires UniqueSymbols(rows)
    ensures UniqueSymbols(UpsertRow(rows, s, id, now))
  {
    var after := UpsertRow(rows, s, id, now);
    match IndexOfSymbol(rows, s.symbol)
    case Some(k) =>
      assert forall i :: 0 <= i < |after| ==> after[i].symbol == rows[i].symbol;
    case None =>
      assert forall i :: 0 <= i < |rows| ==> after[i] == rows[i];
  }

  /** An upsert changes no other symbol's row, and adds a row exactly when its
      symbol was absent. */
  lemma UpsertRowFrame(rows: seq<StockData>, s: InsertStockData, id: RowId, now: Timestamp, x: string)
    ensures x != s.symbol ==> FindBySymbol(UpsertRow(rows, s, id, now), x) == FindBySymbol(rows, x)
    ensures |UpsertRow(rows, s, id, now)| == |rows| + (if FindBySymbol(rows, s.symbol).None? then 1 else 0)
  {
    var after := UpsertRow(rows, s, id, now);
    if x != s.symbol {
      match IndexOfSymbol(rows, x)
      case Some(k) =>
        assert after[k] == rows[k];
        assert IndexOfSymbol(after, x) == Some(k);
      case None =>
        assert IndexOfSymbol(after, x).None?;
    }
  }

  /** `updateStockPrices(list)`: upsert each element in input order; the
      `k`-th write uses identifier `id + k` and time `now + k`. */
  function UpsertAll(rows: seq<StockData>, list: seq<InsertStockData>, id: RowId, now: Timestamp): seq<StockData>
    decreases |list|
  {
    if list == [] then rows
    else
      var n := |list| - 1;
      UpsertRow(UpsertAll(rows, list[..n], id, now), list[n], id + n, now + n)
  }

  /** The last element of `list` that writes `symbol`, if any. */
  function LastWith(list: seq<InsertStockData>, symbol: string): (r: Option<InsertStockData>)
    ensures r.Some? ==> r.value in list && r.value.symbol == symbol
    ensures r.None? ==> forall k :: 0 <= k < |list| ==> list[k].symbol != symbol
    decreases |list|
  {
    if list == [] then None
    else if list[|list| - 1].symbol == symbol then Some(list[|list| - 1])
    else LastWith(list[..|list| - 1], symbol)
  }

  /** A batch upsert keeps the symbol column unique. */
  lemma {:induction false} UpsertAllUnique(rows: seq<StockData>, list: seq<InsertStockData>, id: RowId, now: Timestamp)
    requires UniqueSymbols(rows)
    ensures UniqueSymbols(UpsertAll(rows, list, id, now))
    decreases |list|
  {
    if list != [] {
      var n := |list| - 1;
      UpsertAllUnique(rows, list[..n], id, now);
      UpsertRowUnique(UpsertAll(rows, list[..n], id, now), list[n], id + n, now + n);
    }
  }

  /** The caller-supplied columns stored under `symbol`, if any. */
  function StoredColumns(rows: seq<StockData>, symbol: string): Option<InsertStockData>
  {
    match FindBySymbol(rows, symbol)
    case None => None
    case Some(r) => Some(ToInsert(r))
  }

  /** One step of a batch: the batch is its prefix followed by one upsert. */
  lemma UpsertAllStep(rows: seq<StockData>, list: seq<InsertStockData>, id: RowId, now: Timestamp)
    requires list != []
    ensures UpsertAll(rows, list, id, now) ==
      UpsertRow(UpsertAll(rows, list[..|list| - 1], id, now), list[|list| - 1], id + |list| - 1, now + |list| - 1)
  {
  }

  /** What an upsert leaves under symbol `x`: the written columns when `x` is
      the written symbol, the previous ones otherwise. */
  lemma UpsertRowColumns(rows: seq<StockData>, s: InsertStockData, id: RowId, now: Timestamp, x: string)
    ensures StoredColumns(UpsertRow(rows, s, id, now), x) == if x == s.symbol then Some(s) else StoredColumns(rows, x)
  {
    UpsertRowStores(rows, s, id, now);
    UpsertRowFrame(rows, s, id, now, x);
  }

  /** Upserting the first `k + 1` elements is upserting the first `k` and then element `k`. */
  lemma UpsertAllPrefixStep(rows: seq<StockData>, list: seq<InsertStockData>, k: nat, id: RowId, now: Timestamp)
    requires k < |list|
    ensures UpsertAll(rows, list[..k + 1], id, now) == UpsertRow(UpsertAll(rows, list[..k], id, now), list[k], id + k, now + k)
  {
    UpsertAllStep(rows, list[..k + 1], id, now);
    assert list[..k + 1][..k] == list[..k];
  }

  /** Last write wins: for every symbol the batch writes, the stored row
      carries the columns of the batch's LAST element with that symbol. */
  lemma {:induction false} UpsertAllLastWins(rows: seq<StockData>, list: seq<InsertStockData>, id: RowId, now: Timestamp, x: string)
    requires LastWith(list, x).Some?
    ensures StoredColumns(UpsertAll(rows, list, id, now), x) == LastWith(list, x)
    decreases |list|
  {
    var n := |list| - 1;
    UpsertAllStep(rows, list, id, now);
    UpsertRowColumns(UpsertAll(rows, list[..n], id, now), list[n], id + n, now + n, x);
    if list[n].symbol != x {
      UpsertAllLastWins(rows, list[..n], id, now, x);
    }
  }

  /** A symbol the batch does not write keeps its row. */
  lemma {:induction false} UpsertAllUnwritten(rows: seq<StockData>, list: seq<InsertStockData>, id: RowId, now: Timestamp, x: string)
    requires LastWith(list, x).None?
    ensures FindBySymbol(UpsertAll(rows, list, id, now), x) == FindBySymbol(rows, x)
    decreases |list|
  {
    if list != [] {
      var n := |list| - 1;
      UpsertAllStep(rows, list, id, now);
      UpsertAllUnwritten(rows, list[..n], id, now, x);
      UpsertRowFrame(UpsertAll(rows, list[..n], id, now), list[n], id + n, now + n, x);
    }
  }

  /** `after` has the rows of `rows` in the same positions: same length, and
      each row keeps its id and symbol. */
  ghost predicate SameKeys(rows: seq<StockData>, after: seq<StockData>)
  {
    && |after| == |rows|
    && forall i :: 0 <= i < |rows| ==> after[i].id == rows[i].id && after[i].symbol == rows[i].symbol
  }

  /** An upsert of a stored symbol rewrites that row in place. */
  lemma UpsertRowKeepsKeys(rows: seq<StockData>, s: InsertStockData, id: RowId, now: Timestamp)
    requires FindBySymbol(rows, s.symbol).Some?
    ensures SameKeys(rows, UpsertRow(rows, s, id, now))
  {
    var k := IndexOfSymbol(rows, s.symbol).value;
    assert UpsertRow(rows, s, id, now) == rows[k := StockRow(rows[k].id, s, now)];
  }

  /** A batch whose every symbol is already stored adds no row and moves none. */
  lemma {:induction false} UpsertAllInPlace(rows: seq<StockData>, list: seq<InsertStockData>, id: RowId, now: Timestamp)
    requires forall k :: 0 <= k < |list| ==> FindBySymbol(rows, list[k].symbol).Some?
    ensures SameKeys(rows, UpsertAll(rows, list, id, now))
    decreases |list|
  {
    if list != [] {
      var n := |list| - 1;
      var prefix := list[..n];
      assert forall k :: 0 <= k < n ==> prefix[k] == list[k];
      UpsertAllInPlace(rows, prefix, id, now);
      var mid := UpsertAll(rows, prefix, id, now);
      var p := IndexOfSymbol(rows, list[n].symbol).value;
      assert mid[p].symbol == list[n].symbol;
      UpsertRowKeepsKeys(mid, list[n], id + n, now + n);
      UpsertAllStep(rows, list, id, now);
    }
  }

  /** `after` is `before` as a batch leaves it when the batch's last write to
      its symbol is `last`: same id and symbol, and the written columns, or
      the row unchanged when the batch does not write its symbol. */
  predicate RowRewritten(before: StockData, last: Option<InsertStockData>, after: StockData)
  {
    && after.id == before.id
    && after.symbol == before.symbol
    && match last
       case Some(v) => ToInsert(after) == v
       case None => after == before
  }

  /** An upsert of a stored symbol stamps that symbol's row with `now` and
      leaves every other row as it was. */
  lemma UpsertRowStampAt(rows: seq<StockData>, s: InsertStockData, id: RowId, now: Timestamp, i: nat)
    requires UniqueSymbols(rows)
    requires FindBySymbol(rows, s.symbol).Some?
    requires i < |rows|
    ensures |UpsertRow(rows, s, id, now)| == |rows|
    ensures rows[i].symbol == s.symbol ==> UpsertRow(rows, s, id, now)[i].lastUpdated == now
    ensures rows[i].symbol != s.symbol ==> UpsertRow(rows, s, id, now)[i] == rows[i]
  {
    var p := IndexOfSymbol(rows, s.symbol).value;
    assert UpsertRow(rows, s, id, now) == rows[p := StockRow(rows[p].id, s, now)];
    assert rows[i].symbol == s.symbol ==> i == p;
  }

  /** A batch of stored symbols stamps every row it writes with the time of
      one of its writes. */
  lemma {:induction false} UpsertAllStampsRow(rows: seq<StockData>, list: seq<InsertStockData>, id: RowId, now: Timestamp, i: nat)
    requires UniqueSymbols(rows)
    requires forall k :: 0 <= k < |list| ==> FindBySymbol(rows, list[k].symbol).Some?
    requires i < |rows|
    requires LastWith(list, rows[i].symbol).Some?
    ensures i < |UpsertAll(rows, list, id, now)|
    ensures now <= UpsertAll(rows, list, id, now)[i].lastUpdated < now + |list|
    decreases |list|
  {
    var n := |list| - 1;
    var prefix := list[..n];
    assert forall k :: 0 <= k < n ==> prefix[k] == list[k];
    UpsertAllInPlace(rows, prefix, id, now);
    UpsertAllUnique(rows, prefix, id, now);
    UpsertAllStep(rows, list, id, now);
    var mid := UpsertAll(rows, prefix, id, now);
    var p0 := IndexOfSymbol(rows, list[n].symbol).value;
    assert mid[p0].symbol == list[n].symbol;
    UpsertRowStampAt(mid, list[n], id + n, now + n, i);
    if list[n].symbol != rows[i].symbol {
      UpsertAllStampsRow(rows, prefix, id, now, i);
    }
  }

  /** In a table with unique symbols the row at `i` is the one found under its symbol. */
  lemma FindAtIndex(rows: seq<StockData>, i: nat)
    requires UniqueSymbols(rows)
    requires i < |rows|
    ensures FindBySymbol(rows, rows[i].symbol) == Some(rows[i])
  {
    var j := IndexOfSymbol(rows, rows[i].symbol).value;
    assert j == i;
  }

  /** A batch whose every symbol is already stored rewrites each row in place:
      a row the batch writes carries the batch's last element for its symbol,
      any other row is unchanged. */
  lemma UpsertAllRewritesRow(rows: seq<StockData>, list: seq<InsertStockData>, id: RowId, now: Timestamp, i: nat)
    requires UniqueSymbols(rows)
    requires forall k :: 0 <= k < |list| ==> FindBySymbol(rows, list[k].symbol).Some?
    requires i < |rows|
    ensures i < |UpsertAll(rows, list, id, now)|
    ensures RowRewritten(rows[i], LastWith(list, rows[i].symbol), UpsertAll(rows, list, id, now)[i])
  {
    var after := UpsertAll(rows, list, id, now);
    var x := rows[i].symbol;
    UpsertAllInPlace(rows, list, id, now);
    UpsertAllUnique(rows, list, id, now);
    FindAtIndex(after, i);
    if LastWith(list, x).Some? {
      UpsertAllLastWins(rows, list, id, now, x);
    } else {
      UpsertAllUnwritten(rows, list, id, now, x);
      FindAtIndex(rows, i);
    }
  }

  /** An element found at two positions occurs at least twice. */
  lemma CountTwoPositions(s: seq<StockData>, a: nat, b: nat)
    requires a < b < |s|
    ensures s[a] == s[b] ==> multiset(s)[s[a]] >= 2
  {
    assert s == s[..a] + [s[a]] + s[a + 1..b] + [s[b]] + s[b + 1..];
  }

  /** In a table with unique symbols every row occurs once. */
  lemma CountUniqueRow(rows: seq<StockData>, p: nat)
    requires UniqueSymbols(rows)
    requires p < |rows|
    ensures multiset(rows)[rows[p]] == 1
  {
    assert rows == rows[..p] + [rows[p]] + rows[p + 1..];
    assert rows[p] !in rows[..p];
    assert rows[p] !in rows[p + 1..];
  }

  /** Any reordering of a table with unique symbols has unique symbols. */
  lemma ReorderKeepsUniqueSymbols(rows: seq<StockData>, listing: seq<StockData>)
    requires UniqueSymbols(rows)
    requires multiset(listing) == multiset(rows)
    ensures UniqueSymbols(listing)
  {
    forall a, b | 0 <= a < b < |listing| ensures listing[a].symbol != listing[b].symbol {
      assert listing[a] in multiset(rows) && listing[b] in multiset(rows);
      var p :| 0 <= p < |rows| && rows[p] == listing[a];
      var q :| 0 <= q < |rows| && rows[q] == listing[b];
      CountTwoPositions(listing, a, b);
      CountUniqueRow(rows, p);
    }
  }

  /** `getAllStocks` returns rows in ascending symbol order. */
  ghost predicate SortedBySymbol(rows: seq<StockData>)
  {
    forall i, j :: 0 <= i < j < |rows| ==> StrLe(rows[i].symbol, rows[j].symbol)
  }

  /** Places `x` into a symbol-sorted sequence, keeping it sorted. */
  function InsertBySymbol(x: StockData, sorted: seq<StockData>): (r: seq<StockData>)
    requires SortedBySymbol(sorted)
    ensures SortedBySymbol(r)
    ensures multiset(r) == multiset(sorted) + multiset{x}
    decreases |sorted|
  {
    if sorted == [] then [x]
    else
      assert sorted == [sorted[0]] + sorted[1..];
      if StrLe(x.symbol, sorted[0].symbol) then
        StrLeOrder();
        HeadBelowSorted(x, sorted[0], sorted[1..], sorted);
        [x] + sorted
      else
        var rest := InsertBySymbol(x, sorted[1..]);
        StrLeTotal(x.symbol, sorted[0].symbol);
        HeadBelowSorted(sorted[0], x, sorted[1..], rest);
        [sorted[0]] + rest
  }

  /** `h` may head a sorted sequence made of `x` and the elements of `tail`
      when it sorts no later than either of them. */
  lemma HeadBelowSorted(h: StockData, x: StockData, tail: seq<StockData>, rest: seq<StockData>)
    requires SortedBySymbol(rest)
    requires multiset(rest) == multiset(tail) + multiset{x}
    requires StrLe(h.symbol, x.symbol)
    requires forall k :: 0 <= k < |tail| ==> StrLe(h.symbol, tail[k].symbol)
    ensures SortedBySymbol([h] + rest)
  {
    forall j | 0 <= j < |rest| ensures StrLe(h.symbol, rest[j].symbol) {
      assert rest[j] in multiset(rest);
      if rest[j] != x {
        assert rest[j] in multiset(tail);
        var k :| 0 <= k < |tail| && tail[k] == rest[j];
      }
    }
    assert forall j :: 0 < j < |[h] + rest| ==> ([h] + rest)[j] == rest[j - 1];
  }

  /** `ORDER BY symbol`: the rows of `rows`, every one of them, in ascending symbol order. */
  function SortBySymbol(rows: seq<StockData>): (r: seq<StockData>)
    ensures SortedBySymbol(r)
    ensures multiset(r) == multiset(rows)
  {
    if rows == [] then []
    else
      assert rows == [rows[0]] + rows[1..];
      InsertBySymbol(rows[0], SortBySymbol(rows[1..]))
  }

  // ---------------------------------------------------------------------------
  // watchlist_items

  /** The primary key of `watchlist_items`. */
  ghost predicate UniqueItemIds(items: seq<WatchlistItem>)
  {
    forall i, j :: 0 <= i < j < |items| ==> items[i].id != items[j].id
  }

  /** `WHERE user_id = userId`. */
  function OwnedBy(userId: string): WatchlistItem -> bool
  {
    (w: WatchlistItem) => w.userId == userId
  }

  /** `NOT (user_id = userId AND symbol = symbol)`: the rows a delete keeps. */
  function Unmatched(userId: string, symbol: string): WatchlistItem -> bool
  {
    (w: WatchlistItem) => !(w.userId == userId && w.symbol == symbol)
  }

  /** `getWatchlistByUserId(userId)` on the table, in table order. */
  function ItemsOfUser(items: seq<WatchlistItem>, userId: string): seq<WatchlistItem>
  {
    Filter(items, OwnedBy(userId))
  }

  /** `removeFromWatchlist(userId, symbol)` on the table. */
  function RemoveMatching(items: seq<WatchlistItem>, userId: string, symbol: string): seq<WatchlistItem>
  {
    Filter(items, Unmatched(userId, symbol))
  }

  /** A user's list is exactly the rows whose `userId` is theirs, in table order. */
  lemma ItemsOfUserExact(items: seq<WatchlistItem>, userId: string)
    ensures forall x :: x in ItemsOfUser(items, userId) <==> x in items && x.userId == userId
    ensures forall x :: multiset(ItemsOfUser(items, userId))[x] == if x.userId == userId then multiset(items)[x] else 0
    ensures Subsequence(ItemsOfUser(items, userId), items)
  {
    FilterMembership(items, OwnedBy(userId));
    FilterMultiset(items, OwnedBy(userId));
    FilterSubsequence(items, OwnedBy(userId));
  }

  /** A delete removes every row matching both `userId` and `symbol`, keeps every
      other row in its order, and changes nothing when no row matches. */
  lemma RemoveMatchingExact(items: seq<WatchlistItem>, userId: string, symbol: string)
    ensures forall x :: x in RemoveMatching(items, userId, symbol) <==>
      x in items && !(x.userId == userId && x.symbol == symbol)
    ensures forall x :: multiset(RemoveMatching(items, userId, symbol))[x] == if x.userId == userId && x.symbol == symbol then 0 else multiset(items)[x]
    ensures Subsequence(RemoveMatching(items, userId, symbol), items)
    ensures (forall i :: 0 <= i < |items| ==> !(items[i].userId == userId && items[i].symbol == symbol)) ==>
      RemoveMatching(items, userId, symbol) == items
  {
    FilterMembership(items, Unmatched(userId, symbol));
    FilterMultiset(items, Unmatched(userId, symbol));
    FilterSubsequence(items, Unmatched(userId, symbol));
    if forall i :: 0 <= i < |items| ==> !(items[i].userId == userId && items[i].symbol == symbol) {
      FilterKeepsAll(items, Unmatched(userId, symbol));
    }
  }

  /** Deleting rows keeps the primary key unique. */
  lemma {:induction false} FilterKeepsItemIdsUnique(items: seq<WatchlistItem>, p: WatchlistItem -> bool)
    requires UniqueItemIds(items)
    ensures UniqueItemIds(Filter(items, p))
  {
    if items != [] {
      FilterKeepsItemIdsUnique(items[1..], p);
      FilterMembership(items[1..], p);
      var rest := Filter(items[1..], p);
      forall j | 0 <= j < |rest| ensures rest[j].id != items[0].id {
        assert rest[j] in items[1..];
      }
    }
  }

  // ---------------------------------------------------------------------------
  // Seed data

  /** The ten quotes the store is seeded with. */
  function DefaultStocks(): seq<InsertStockData>
  {
    [ InsertStockData("AAPL", "Apple Inc.", 189.84, 2.47, 1.32, 45200000, Some(2980000000000.0), Some("Technology")),
      InsertStockData("GOOGL", "Alphabet Inc.", 139.23, -1.87, -1.32, 28700000, Some(1750000000000.0), Some("Technology")),
      InsertStockData("MSFT", "Microsoft Corp.", 374.51, 5.23, 1.42, 32100000, Some(2780000000000.0), Some("Technology")),
      InsertStockData("AMZN", "Amazon.com Inc.", 142.18, 0.95, 0.67, 41800000, Some(1480000000000.0), Some("Consumer Discretionary")),
      InsertStockData("TSLA", "Tesla Inc.", 248.87, -7.23, -2.82, 52600000, Some(791000000000.0), Some("Consumer Discretionary")),
      InsertStockData("META", "Meta Platforms Inc.", 318.75, 4.12, 1.31, 19500000, Some(810000000000.0), Some("Technology")),
      InsertStockData("NVDA", "NVIDIA Corp.", 875.28, 12.54, 1.45, 35600000, Some(2160000000000.0), Some("Technology")),
      InsertStockData("NFLX", "Netflix Inc.", 421.32, -3.87, -0.91, 8200000, Some(187000000000.0), Some("Communication Services")),
      InsertStockData("AMD", "Advanced Micro Devices", 137.45, 2.18, 1.61, 42300000, Some(222000000000.0), Some("Technology")),
      InsertStockData("UBER", "Uber Technologies", 56.23, -1.42, -2.46, 18700000, Some(115000000000.0), Some("Technology")) ]
  }

  /** No two elements of a batch write the same symbol. */
  ghost predicate DistinctSymbols(list: seq<InsertStockData>)
  {
    forall i, j :: 0 <= i < j < |list| ==> list[i].symbol != list[j].symbol
  }

  /** In a batch without repeated symbols each element is the last write of its symbol. */
  lemma {:induction false} LastWithDistinct(list: seq<InsertStockData>, k: nat)
    requires DistinctSymbols(list)
    requires k < |list|
    ensures LastWith(list, list[k].symbol) == Some(list[k])
    decreases |list|
  {
    var n := |list| - 1;
    if k < n {
      assert list[..n][k] == list[k];
      LastWithDistinct(list[..n], k);
    }
  }

  /** A batch of new, distinct symbols adds one row per element. */
  lemma {:induction false} UpsertAllFresh(rows: seq<StockData>, list: seq<InsertStockData>, id: RowId, now: Timestamp)
    requires DistinctSymbols(list)
    requires forall k :: 0 <= k < |list| ==> FindBySymbol(rows, list[k].symbol).None?
    ensures |UpsertAll(rows, list, id, now)| == |rows| + |list|
    decreases |list|
  {
    if list != [] {
      var n := |list| - 1;
      var prefix := list[..n];
      assert forall k :: 0 <= k < n ==> prefix[k] == list[k];
      UpsertAllFresh(rows, prefix, id, now);
      UpsertAllStep(rows, list, id, now);
      UpsertAllUnwritten(rows, prefix, id, now, list[n].symbol);
      UpsertRowFrame(UpsertAll(rows, prefix, id, now), list[n], id + n, now + n, list[n].symbol);
    }
  }

  /** The ten seed symbols are pairwise different. */
  lemma DefaultSymbolsDistinct()
    ensures DistinctSymbols(DefaultStocks())
  {
  }

  /** Seeding an empty table stores the ten default quotes, one row each. */
  lemma SeededTable()
    ensures |UpsertAll([], DefaultStocks(), 0, 0)| == |DefaultStocks()| == 10
    ensures forall k :: 0 <= k < |DefaultStocks()| ==>
      StoredColumns(UpsertAll([], DefaultStocks(), 0, 0), DefaultStocks()[k].symbol) == Some(DefaultStocks()[k])
  {
    var list := DefaultStocks();
    DefaultSymbolsDistinct();
    UpsertAllFresh([], list, 0, 0);
    forall k | 0 <= k < |list|
      ensures StoredColumns(UpsertAll([], list, 0, 0), list[k].symbol) == Some(list[k])
    {
      LastWithDistinct(list, k);
      UpsertAllLastWins([], list, 0, 0, list[k].symbol);
    }
  }

  // ---------------------------------------------------------------------------
  // The store

  /** `DatabaseStorage`: both tables, plus the identifier source standing in
      for `gen_random_uuid()` and the clock standing in for both the update
      stamp `new Date()` and the database's `defaultNow()` on insert. Both
      advance by one on every insert or update; a delete leaves them as they
      are. */
  class DatabaseStorage {
    var stocks: seq<StockData>
    var watchlist: seq<WatchlistItem>
    var nextId: RowId
    var clock: Timestamp

    /** The table constraints, and every stored id and timestamp lies behind the counters. */
    ghost predicate Valid()
      reads this
    {
      && UniqueSymbols(stocks)
      && UniqueStockIds(stocks)
      && UniqueItemIds(watchlist)
      && (forall i :: 0 <= i < |stocks| ==> stocks[i].id < nextId && stocks[i].lastUpdated < clock)
      && (forall i :: 0 <= i < |watchlist| ==> watchlist[i].id < nextId && watchlist[i].addedAt < clock)
    }

    /** A new store is seeded with the default quotes and has an empty watchlist. */
    constructor ()
      ensures Valid()
      ensures stocks == UpsertAll([], DefaultStocks(), 0, 0)
      ensures watchlist == []
      ensures nextId == |DefaultStocks()| && clock == |DefaultStocks()|
    {
      stocks, watchlist, nextId, clock := [], [], 0, 0;
      new;
      InitializeDefaultStocks();
    }

    /** Upserts each default quote in turn. */
    method InitializeDefaultStocks()
      requires Valid()
      modifies this
      ensures Valid()
      ensures stocks == UpsertAll(old(stocks), DefaultStocks(), old(nextId), old(clock))
      ensures watchlist == old(watchlist)
      ensures nextId == old(nextId) + |DefaultStocks()| && clock == old(clock) + |DefaultStocks()|
    {
      UpdateStockPrices(DefaultStocks());
    }

    /** `getAllStocks`: every stored quote, ascending by symbol. */
    method GetAllStocks() returns (r: seq<StockData>)
      ensures r == SortBySymbol(stocks)
      ensures SortedBySymbol(r)
      ensures multiset(r) == multiset(stocks)
    {
      r := SortBySymbol(stocks);
    }

    /** `getStockBySymbol`: the quote whose symbol is exactly `symbol`, or `None`. */
    method GetStockBySymbol(symbol: string) returns (r: Option<StockData>)
      ensures r.Some? ==> r.value in stocks && r.value.symbol == symbol
      ensures r.None? <==> forall k :: 0 <= k < |stocks| ==> stocks[k].symbol != symbol
    {
      r := FindBySymbol(stocks, symbol);
    }

    /** `createOrUpdateStock`: the upsert, returning the stored row. */
    method CreateOrUpdateStock(s: InsertStockData) returns (row: StockData)
      requires Valid()
      modifies this
      ensures Valid()
      ensures stocks == UpsertRow(old(stocks), s, old(nextId), old(clock))
      ensures FindBySymbol(stocks, s.symbol) == Some(row)
      ensures ToInsert(row) == s && row.lastUpdated == old(clock)
      ensures forall k :: 0 <= k < |old(stocks)| ==> old(stocks)[k].lastUpdated < row.lastUpdated
      ensures watchlist == old(watchlist)
      ensures nextId == old(nextId) + 1 && clock == old(clock) + 1
    {
      UpsertRowStores(stocks, s, nextId, clock);
      match IndexOfSymbol(stocks, s.symbol) {
        case Some(k) =>
          row := StockRow(stocks[k].id, s, clock);
          stocks := stocks[k := row];
        case None =>
          row := StockRow(nextId, s, clock);
          stocks := stocks + [row];
      }
      nextId, clock := nextId + 1, clock + 1;
    }

    /** `updateStockPrices`: upsert each element of `list` in order. */
    method UpdateStockPrices(list: seq<InsertStockData>)
      requires Valid()
      modifies this
      ensures Valid()
      ensures stocks == UpsertAll(old(stocks), list, old(nextId), old(clock))
      ensures watchlist == old(watchlist)
      ensures nextId == old(nextId) + |list| && clock == old(clock) + |list|
    {
      ghost var rows, id, now := stocks, nextId, clock;
      for k := 0 to |list|
        invariant Valid()
        invariant stocks == UpsertAll(rows, list[..k], id, now)
        invariant watchlist == old(watchlist)
        invariant nextId == id + k && clock == now + k
      {
        UpsertAllPrefixStep(rows, list, k, id, now);
        var _ := CreateOrUpdateStock(list[k]);
      }
      assert list[..|list|] == list;
    }

    /** `getWatchlistByUserId`: the user's rows, in table order. */
    method GetWatchlistByUserId(userId: string) returns (r: seq<WatchlistItem>)
      ensures r == ItemsOfUser(watchlist, userId)
      ensures forall x :: x in r <==> x in watchlist && x.userId == userId
      ensures Subsequence(r, watchlist)
    {
      r := ItemsOfUser(watchlist, userId);
      ItemsOfUserExact(watchlist, userId);
    }

    /** `addToWatchlist`: always appends one row; no duplicate check. */
    method AddToWatchlist(item: InsertWatchlistItem) returns (w: WatchlistItem)
      requires Valid()
      modifies this
      ensures Valid()
      ensures w == WatchlistRow(old(nextId), item, old(clock))
      ensures watchlist == old(watchlist) + [w]
      ensures forall k :: 0 <= k < |old(watchlist)| ==> old(watchlist)[k].id != w.id
      ensures stocks == old(stocks)
      ensures nextId == old(nextId) + 1 && clock == old(clock) + 1
    {
      w := WatchlistRow(nextId, item, clock);
      watchlist := watchlist + [w];
      nextId, clock := nextId + 1, clock + 1;
    }

    /** `removeFromWatchlist`: deletes every row of `userId` with `symbol`. */
    method RemoveFromWatchlist(userId: string, symbol: string)
      requires Valid()
      modifies this
      ensures Valid()
      ensures watchlist == RemoveMatching(old(watchlist), userId, symbol)
      ensures stocks == old(stocks) && nextId == old(nextId) && clock == old(clock)
    {
      var kept := RemoveMatching(watchlist, userId, symbol);
      FilterKeepsItemIdsUnique(watchlist, Unmatched(userId, symbol));
      RemoveMatchingExact(watchlist, userId, symbol);
      forall i | 0 <= i < |kept| ensures kept[i].id < nextId && kept[i].addedAt < clock {
        assert kept[i] in watchlist;
      }
      watchlist := kept;
    }
  }
}
