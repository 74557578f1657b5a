# StockTrackerPro: the data-access layer, the API handlers and the table logic

StockTrackerPro is a stock dashboard. Its server keeps one `stock_data` row per
ticker symbol. The rows are seeded with ten quotes when the store starts and are
rewritten by a create-or-update ("upsert") by symbol. The server also keeps
`watchlist_items` rows that join a user to a symbol. The server's HTTP handlers
look a symbol up, simulate a price refresh of every row, and add and remove
watchlist entries for a fixed demo user. The client filters the quotes by a
search term, sector and gainers/losers selection, and sorts them in place with
one comparator. It also joins the watchlist with the quotes to show totals and
the best and worst performer.

The model has one Dafny module per part of the program:

- `Schema` holds the row and insert shapes, the sort configuration, and the symbol lookup.
- `Storage` holds the two tables as sequences, the table functions that
  specify each store operation, and the `DatabaseStorage` class. That class
  changes the tables in place, and its methods are proved against those functions.
- `Routes` holds the handlers, as methods on one `DatabaseStorage`.
- `SortControl` holds the column-header sort toggle.
- `StockTable` holds the search filter, the comparator, and the in-place
  insertion sort on an array that stands in for `Array.prototype.sort`.
- `Dashboard` and `WatchlistPage` hold the two pages' derived values.
- `Text` holds the case mapping, `includes`, and string order.
- `Seqs` holds order-preserving filtering.

Three things the system takes from its environment become explicit inputs:

- Row ids: the store's `nextId` counter stands in for `gen_random_uuid()`.
- Timestamps: the store's `clock` counter stands in for both clocks the
  system reads: Node's `new Date()`, which stamps an updated stock
  (server/storage.ts:98), and the database's `defaultNow()`, which stamps an
  inserted stock and a watchlist entry's added-at time (shared/schema.ts:18,
  31). Both counters advance by one on every insert or update; a delete
  leaves them unchanged.
- `Math.random()`: each refreshed stock takes a `Draw` of four values in [0, 1).

## Model

| member | source | states |
|---|---|---|
| Schema.StockRow | shared/schema.ts:21-32 | a written row carries exactly the caller's columns (`ToInsert(r) == s`) plus the store-assigned id and timestamp |
| Schema.WatchlistRow | shared/schema.ts:12-19 | a written watchlist row carries the caller's user, symbol, name and sector plus the store-assigned id and added-at time |
| Schema.FindBySymbol | server/storage.ts:84-87 | the row at the position `IndexOfSymbol` finds; its contract is stated by `IndexOfSymbol` and by `Storage.DatabaseStorage.GetStockBySymbol` |
| Schema.IndexOfSymbol | server/storage.ts:84-87 | the lookup `WHERE symbol = s` finds a position holding `s` and no earlier one, or reports none exactly when no row holds `s` |
| Text.ToUpper | server/routes.ts:20 | `toUpperCase` keeps the length, maps each character to its capital, and leaves no lower-case letter |
| Text.ToLower | client/src/components/stock-table.tsx:26-27 | `toLowerCase` keeps the length, maps each character, and leaves no upper-case letter |
| Text.Includes | client/src/components/stock-table.tsx:26-27 | `includes`: the needle is a prefix of some suffix of the text; `StockTable.EmptyTermMatches` states that the empty needle is in every text |
| Text.IncludesExact | client/src/components/stock-table.tsx:26-27 | `includes` holds exactly when the needle occurs at some position of the text, the whole needle fitting before its end |
| Text.ToUpperIdempotent | server/routes.ts:20 | upper-casing twice equals upper-casing once |
| Text.LocaleCompare | client/src/components/stock-table.tsx:36-38 | zero exactly for equal strings, negative only when the first sorts no later, positive only when the second does |
| Text.LocaleCompareSwap | client/src/components/stock-table.tsx:36-38 | swapping the arguments negates the result, so descending is ascending reversed |
| Storage.UpsertRow | server/storage.ts:89-117 | the table after `createOrUpdateStock`; its contract is stated by `UpsertRowStores`, `UpsertRowUnique`, `UpsertRowFrame` and `UpsertRowStampAt` |
| Storage.UpsertRowStores | server/storage.ts:89-117 | after an upsert the row under the symbol holds every given column and the new timestamp, with the old row's id when the symbol existed and a fresh id otherwise |
| Storage.UpsertRowUnique | server/storage.ts:89-117 | an upsert keeps `stock_data.symbol` unique (schema.ts:23) |
| Storage.UpsertRowFrame | server/storage.ts:92-116 | an upsert leaves every other symbol's row as it was, and adds a row exactly when the symbol was absent |
| Storage.UpsertRowStampAt | server/storage.ts:92-104 | updating a stored symbol stamps that row with the write's time and leaves every other row as it was |
| Storage.UpsertAll | server/storage.ts:119-123 | the table after `updateStockPrices`, one upsert per element in order; its contract is stated by the `UpsertAll…` lemmas below |
| Storage.UpsertAllUnique | server/storage.ts:119-123 | a batch of upserts keeps the symbol column unique |
| Storage.UpsertAllLastWins | server/storage.ts:119-123 | after a batch, the columns stored under a symbol are those of the batch's last element with that symbol |
| Storage.UpsertAllUnwritten | server/storage.ts:119-123 | a batch leaves the row of a symbol it never writes unchanged |
| Storage.UpsertAllInPlace | server/storage.ts:119-123 | a batch whose symbols are all stored adds no row and keeps every row's id and symbol at its position |
| Storage.UpsertAllRewritesRow | server/storage.ts:119-123 | under such a batch each row keeps its id and symbol and carries its symbol's last write, or is unchanged when its symbol is not written |
| Storage.UpsertAllStampsRow | server/storage.ts:119-123 | under a batch of stored symbols, a row the batch writes carries the time of one of the batch's writes |
| Storage.ReorderKeepsUniqueSymbols | server/storage.ts:80-82 | the table in any other order, such as the `ORDER BY symbol` listing, still has unique symbols |
| Storage.UpsertAllFresh | server/storage.ts:54-56 | a batch of new, pairwise-distinct symbols adds exactly one row per element |
| Storage.DefaultSymbolsDistinct | server/storage.ts:41-52 | the ten seed symbols are pairwise different |
| Storage.SeededTable | server/storage.ts:40-57 | seeding an empty table yields ten rows, and each seed quote's columns are stored under its symbol |
| Storage.SortBySymbol | server/storage.ts:80-82 | `ORDER BY symbol` yields a permutation of the rows, ascending by symbol |
| Storage.ItemsOfUser | server/storage.ts:125-127 | the rows `WHERE user_id = userId`; its contract is stated by `ItemsOfUserExact` |
| Storage.ItemsOfUserExact | server/storage.ts:125-127 | a user's list holds exactly the rows with that user id, each as often as in the table, in table order |
| Storage.RemoveMatching | server/storage.ts:140-149 | the rows a delete keeps; its contract is stated by `RemoveMatchingExact` |
| Storage.RemoveMatchingExact | server/storage.ts:140-149 | a delete drops every row matching both user and symbol, keeps every other row as often as before and in order, and is a no-op when nothing matches |
| Storage.FilterKeepsItemIdsUnique | server/storage.ts:140-149 | deleting rows keeps the watchlist's primary key unique |
| Storage.DatabaseStorage.constructor | server/storage.ts:35-38 | a new store holds the seeded table and an empty watchlist and satisfies the table invariants |
| Storage.DatabaseStorage.InitializeDefaultStocks | server/storage.ts:40-57 | the table becomes the ten default quotes upserted in order; the watchlist is unchanged |
| Storage.DatabaseStorage.GetAllStocks | server/storage.ts:80-82 | the table in `ORDER BY symbol` order: every stored row, each once, ascending by symbol |
| Storage.DatabaseStorage.GetStockBySymbol | server/storage.ts:84-87 | a stored row with exactly that symbol, or none exactly when no row has it |
| Storage.DatabaseStorage.CreateOrUpdateStock | server/storage.ts:89-117 | the table becomes the upsert of the old one; the returned row is the one now found under the symbol and carries the given columns and a timestamp later than every earlier row (the counter's order, see Left out); the invariants hold |
| Storage.DatabaseStorage.UpdateStockPrices | server/storage.ts:119-123 | the loop leaves the table equal to the batch upsert of the list, one id and one tick per element; the watchlist is unchanged |
| Storage.DatabaseStorage.GetWatchlistByUserId | server/storage.ts:125-127 | exactly the rows of the user, in table order |
| Storage.DatabaseStorage.AddToWatchlist | server/storage.ts:129-138 | appends exactly one row with a fresh id that no earlier row has, without any duplicate check; the stocks are unchanged |
| Storage.DatabaseStorage.RemoveFromWatchlist | server/storage.ts:140-149 | the watchlist loses exactly the rows matching user and symbol; the stocks are unchanged |
| Routes.GetStock | server/routes.ts:17-30 | the answer is the stored row whose symbol is the upper-cased path symbol, or 404 "Stock not found" exactly when no row has it |
| Routes.LookupIgnoresCase | server/routes.ts:20 | looking up an already upper-cased symbol finds the same row |
| Routes.RefreshQuote | server/routes.ts:37-46 | the listing columns are copied; the price moves by at least -5 and less than +5; change, percent and volume fall in [-2.5, 2.5), [-1.5, 1.5) and [10000000, 59999999] |
| Routes.Refreshed | server/routes.ts:37-46 | the map keeps the length and refreshes each stock with its own draw |
| Routes.RefreshKeepsListing | server/routes.ts:36-48 | writing back the refreshed listing adds or loses no row; every row keeps its id and listing, its quote moves within the refresh ranges, and its timestamp is one of the batch's write times |
| Routes.RefreshRow | server/routes.ts:37-48 | the last write of a row's symbol in the refreshed batch is that row's own quote refreshed with the draw at the row's position in the listing |
| Routes.RefreshStocks | server/routes.ts:32-55 | the table becomes the batch upsert of the symbol-ordered listing, the `k`-th stock refreshed with the `k`-th draw; it keeps its size; every row is refreshed in place and stamped during the refresh; the answer is the re-read table sorted by symbol |
| Routes.HasSymbol | server/routes.ts:79 | `some(item => item.symbol === symbol)` holds exactly when some entry has the symbol |
| Routes.AppendKeepsDistinct | server/routes.ts:77-90 | appending a symbol the user lacks keeps the user's symbols distinct |
| Routes.FilterKeepsDistinct | server/routes.ts:98-106 | deleting entries keeps the user's symbols distinct |
| Routes.PostWatchlist | server/routes.ts:69-96 | 400 with no change when symbol or name is missing or empty; 409 with no change when the user has the upper-cased symbol; otherwise the new upper-cased entry is appended and returned; the user's symbols stay distinct |
| Routes.DeleteWatchlist | server/routes.ts:98-106 | the user's entries for the upper-cased symbol are removed and the confirmation is sent even when none matched; distinctness is kept |
| SortControl.RequestSort | client/src/pages/dashboard.tsx:113-119 | selects the column, descending exactly when it was already the ascending column (same code at watchlist.tsx:28-34) |
| SortControl.RequestSortAlternates | client/src/pages/dashboard.tsx:113-119 | clicking the same column again flips the direction |
| SortControl.RequestSortTwiceRestores | client/src/pages/dashboard.tsx:113-119 | two clicks on the ascending column restore the configuration |
| SortControl.RequestSortNewColumnAscends | client/src/pages/dashboard.tsx:113-119 | a different column always starts ascending |
| StockTable.EmptyTermMatches | client/src/components/stock-table.tsx:24-28 | every stock matches the empty search term |
| StockTable.SearchFilter | client/src/components/stock-table.tsx:24-28 | `stocks.filter(...)` on the search term; its contract is stated by `SearchFilterExact` |
| StockTable.SearchFilterExact | client/src/components/stock-table.tsx:24-28 | the search keeps exactly the stocks whose lower-cased symbol or name contains the lower-cased term, each as often as given, in order, and all of them for the empty term |
| StockTable.FieldOf | client/src/components/stock-table.tsx:32-33 | `stock[key]` as a string, a number or null; its use is stated by the `Compare…` lemmas |
| StockTable.Compare | client/src/components/stock-table.tsx:31-48 | the sort callback; its contract is stated by `CompareDescIsSwappedAsc`, `CompareMismatchedIsZero`, `CompareAntisymmetric` and `CompareTransitive` |
| StockTable.CompareDescIsSwappedAsc | client/src/components/stock-table.tsx:35-45 | descending comparison is ascending comparison with the arguments swapped |
| StockTable.CompareMismatchedIsZero | client/src/components/stock-table.tsx:47 | values of different kinds, nulls included, compare as 0 |
| StockTable.CompareAntisymmetric | client/src/components/stock-table.tsx:31-48 | swapping the arguments negates the comparator |
| StockTable.CompareTransitive | client/src/components/stock-table.tsx:31-48 | on a column without nulls "sorts no later" is transitive |
| StockTable.SortedByNumber | client/src/components/stock-table.tsx:41-45 | a table sorted by a number column is non-decreasing ascending and non-increasing descending |
| StockTable.ComparatorConsistent | client/src/components/stock-table.tsx:31-48 | on a column without nulls the sort callback is a consistent order |
| StockTable.SortInPlace | client/src/components/stock-table.tsx:31 | the array ends a permutation of itself, sorted under any consistent comparator |
| StockTable.InsertLast | client/src/components/stock-table.tsx:31 | one insertion pass rearranges only `a[..i + 1]` (the prefix keeps its multiset, the rest of the array stays as it was) and extends the sorted prefix by one element |
| StockTable.FilteredAndSortedStocks | client/src/components/stock-table.tsx:23-52 | the filtered stocks, as a permutation; in their given order when no column is selected; and sorted by the comparator on a column without nulls |
| StockTable.GetSortIcon | client/src/components/stock-table.tsx:54-61 | a down chevron exactly for the active descending column; an up chevron otherwise, highlighted exactly on the active column |
| Dashboard.FilteredStocks | client/src/pages/dashboard.tsx:121-133 | `filteredStocks`; its contract is stated by `FilteredStocksExact` and `NoFilterKeepsAll` |
| Dashboard.FilteredStocksExact | client/src/pages/dashboard.tsx:121-133 | the page shows exactly the stocks passing the search, sector and performance filters, each as often as given, in order |
| Dashboard.NoFilterKeepsAll | client/src/pages/dashboard.tsx:121-133 | with nothing typed or selected every stock is shown |
| Dashboard.SearchClauseAgreesWithTable | client/src/pages/dashboard.tsx:122-124 | the page's empty-term short cut agrees with the table's own search |
| Dashboard.UnchangedIsNeither | client/src/pages/dashboard.tsx:128-130 | a stock with zero change is shown under neither "gainers" nor "losers" |
| Dashboard.Gainers | client/src/pages/dashboard.tsx:250 | the gainers tally; its contract is stated by `TalliesBounded` and `GainersTallyMatchesFilter` |
| Dashboard.Losers | client/src/pages/dashboard.tsx:262 | the losers tally; its contract is stated by `TalliesBounded` |
| Dashboard.TalliesBounded | client/src/pages/dashboard.tsx:250-262 | gainers plus losers never exceed the number of stocks |
| Dashboard.GainersTallyMatchesFilter | client/src/pages/dashboard.tsx:250 | the gainers tally equals the number of rows the "gainers" selection shows |
| Dashboard.Sectors | client/src/pages/dashboard.tsx:135 | each non-empty sector of some stock once, and nothing else |
| WatchlistPage.Join | client/src/pages/watchlist.tsx:37-40 | the entries kept are the entries whose symbol is listed, in order, each paired with the first stock of its symbol |
| WatchlistPage.JoinExact | client/src/pages/watchlist.tsx:37-40 | an entry is kept exactly when a stock has its symbol, as often as in the watchlist and in order |
| WatchlistPage.JoinPairsOwnStock | client/src/pages/watchlist.tsx:38-39 | each kept entry carries a loaded stock of its own symbol |
| WatchlistPage.JoinKeepsListed | client/src/pages/watchlist.tsx:37-40 | when every symbol is listed no entry is dropped |
| WatchlistPage.TotalValue | client/src/pages/watchlist.tsx:42 | the sum of the joined prices; its contract is stated by `TotalsSplit` |
| WatchlistPage.TotalChange | client/src/pages/watchlist.tsx:43 | the sum of the joined changes; its contract is stated by `TotalsSplit` |
| WatchlistPage.TotalsSplit | client/src/pages/watchlist.tsx:42-43 | both totals add up over any split of the list |
| WatchlistPage.BestPerformer | client/src/pages/watchlist.tsx:44 | none exactly for no entries; otherwise a change percentage some entry has and none exceeds |
| WatchlistPage.WorstPerformer | client/src/pages/watchlist.tsx:45 | none exactly for no entries; otherwise a change percentage some entry has and none goes below |
| WatchlistPage.WorstAtMostBest | client/src/pages/watchlist.tsx:44-45 | whenever the figures are shown the worst is at most the best |

## Left out

- SQL and Drizzle. Each table is a sequence in row order, and each query or update is a function over it. Connection handling and transactions are not modelled.
- Users and `upsertUser`, and the market-indices, chart and analytics endpoints. They are outside this model.
- Storage.DatabaseStorage.GetWatchlistByUserId: the query at server/storage.ts:125-127 has no `ORDER BY`, so the database may return a user's rows in any order. Returning them in table order, which `Storage.ItemsOfUserExact` states as a subsequence, is a choice of this model.
- `GET /api/stocks` and `GET /api/watchlist`. They pass `getAllStocks` and `getWatchlistByUserId` straight through, and those two are modelled.
- The 500 responses. The model has no storage failures, so the catch branches cannot be reached.
- Routes.PostWatchlist and Storage.DatabaseStorage.AddToWatchlist: the foreign key from `watchlist_items.user_id` to `users.id` (shared/schema.ts:14) is not modelled. The route always inserts user "default-user". Nothing in the code creates a `users` row with that id, since `users.id` defaults to a fresh uuid (shared/schema.ts:7). Against a database without such a row the insert fails and the route answers 500 (server/routes.ts:93-94). The model's append always succeeds, so it describes a database where that user row exists.
- Storage.DatabaseStorage.constructor: the tables outlive the process. `new DatabaseStorage()` upserts the ten quotes over whatever `stock_data` already holds and keeps every watchlist row. The constructor's contract, an empty watchlist and exactly the ten seeded rows, describes a first start on empty tables. `InitializeDefaultStocks` states the general case: the defaults upserted over any prior table.
- Concurrency. The seeding in the constructor is not awaited, and the check-then-insert in `POST /api/watchlist` races. The model runs each call to completion.
- The duplicate check for the watchlist lives in the route, as in the code. `addToWatchlist` itself never refuses a duplicate.
- `removeFromWatchlist` deletes every row matching (user, symbol), as the code does, even if duplicates got in through the race above. The model does not delete only the first match.
- `Math.random()`, `new Date()` and `gen_random_uuid()`. Random draws are parameters; the clock and the ids are counters.
- Floating point. Prices and changes are reals, so rounding in the refresh arithmetic is not modelled.
- Locale. `toUpperCase` and `toLowerCase` map ASCII letters only. `localeCompare` and `ORDER BY symbol` are code-unit lexicographic order.
- StockTable.FieldOf: ids reach the comparator as their decimal text, not as uuid strings.
- StockTable.FieldOf: `lastUpdated` is compared as a number, not as its ISO-8601 string. ISO strings of equal width order as their instants.
- StockTable.FilteredAndSortedStocks: sortedness is promised only for columns without nulls. For `marketCap` and `sector`, a null compares as 0 with everything, so the comparator is not a consistent order. `Array.prototype.sort` then returns an implementation-defined order; the model promises only a permutation there.
- StockTable.SortInPlace: stability is not stated. `Array.prototype.sort` is stable, and insertion sort is too, but no contract says so.
- WatchlistPage.BestPerformer and WatchlistPage.WorstPerformer: on an empty list `Math.max` and `Math.min` give -Infinity and Infinity. The model gives `None`; the page hides the figures then.
- WatchlistPage.TotalValue and WatchlistPage.TotalChange: the `|| 0` fallbacks make no difference. Every joined entry has a stock, and a value of 0 falls back to 0.
- Routes.PostWatchlist: a `symbol` that is present but not a string makes `toUpperCase` throw and return 500 (server/routes.ts:79, 87); a `name` or `sector` that is not a string reaches the insert unchanged. Body fields are modelled as optional strings, so both cases are outside the model.
- Storage.DatabaseStorage.CreateOrUpdateStock: the strict order of stamps (`old(stocks)[k].lastUpdated < row.lastUpdated`) belongs to the single `clock` counter. The program stamps with two clocks, Node's `new Date()` on update and the database's `defaultNow()` on insert, so its stamps can tie or go backwards.
- The UI components (navigation, charts, toasts, query caching) and the other pages. They are outside this model.
