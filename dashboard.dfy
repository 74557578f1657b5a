/** The dashboard page: the stocks shown after the search box, the sector
    select and the gainers/losers select, the sector options offered, and the
    gainers and losers tallies. */
module Dashboard {
  import opened Schema
  import opened Seqs
  import opened StockTable

  /** A stock passes all three of the page's filters. An empty selection
      passes every stock; the performance select offers "gainers" and "losers". */
  predicate MatchesFilters(s: StockData, term: string, sector: string, performance: string)
  {
    && (term == "" || MatchesSearch(s, term))
    && (sector == "" || s.sector == Some(sector))
    && (performance == "" || (performance == "gainers" && s.change > 0.0) || (performance == "losers" && s.change < 0.0))
  }

  function Selected(term: string, sector: string, performance: string): StockData -> bool
  {
    (s: StockData) => MatchesFilters(s, term, sector, performance)
  }

  /** `filteredStocks`. */
  function FilteredStocks(stocks: seq<StockData>, term: string, sector: string, performance: string): seq<StockData>
  {
    Filter(stocks, Selected(term, sector, performance))
  }

  /** The page keeps exactly the stocks passing all three filters, in order. */
  lemma FilteredStocksExact(stocks: seq<StockData>, term: string, sector: string, performance: string)
    ensures forall x :: x in FilteredStocks(stocks, term, sector, performance) <==>
      x in stocks && MatchesFilters(x, term, sector, performance)
    ensures forall x :: multiset(FilteredStocks(stocks, term, sector, performance))[x] == if MatchesFilters(x, term, sector, performance) then multiset(stocks)[x] else 0
    ensures Subsequence(FilteredStocks(stocks, term, sector, performance), stocks)
  {
    FilterMembership(stocks, Selected(term, sector, performance));
    FilterMultiset(stocks, Selected(term, sector, performance));
    FilterSubsequence(stocks, Selected(term, sector, performance));
  }

  /** With nothing typed or selected every stock is shown. */
  lemma NoFilterKeepsAll(stocks: seq<StockData>)
    ensures FilteredStocks(stocks, "", "", "") == stocks
  {
    FilterKeepsAll(stocks, Selected("", "", ""));
  }

  /** The page's "no term" test agrees with the table's own search: the
      empty term is contained in every symbol. */
  lemma SearchClauseAgreesWithTable(s: StockData, term: string)
    ensures (term == "" || MatchesSearch(s, term)) == MatchesSearch(s, term)
  {
    if term == "" {
      EmptyTermMatches(s);
    }
  }

  /** A stock with no change is neither a gainer nor a loser. */
  lemma UnchangedIsNeither(s: StockData, term: string, sector: string)
    requires s.change == 0.0
    ensures !MatchesFilters(s, term, sector, "gainers")
    ensures !MatchesFilters(s, term, sector, "losers")
  {
  }

  // ---------------------------------------------------------------------------
  // Tallies

  function IsGainer(s: StockData): bool { s.change > 0.0 }

  function IsLoser(s: StockData): bool { s.change < 0.0 }

  /** `stocks.filter(s => s.change > 0).length`. */
  function Gainers(stocks: seq<StockData>): nat
  {
    |Filter(stocks, IsGainer)|
  }

  /** `stocks.filter(s => s.change < 0).length`. */
  function Losers(stocks: seq<StockData>): nat
  {
    |Filter(stocks, IsLoser)|
  }

  /** No stock is both a gainer and a loser, so the two tallies never exceed the total. */
  lemma TalliesBounded(stocks: seq<StockData>)
    ensures Gainers(stocks) + Losers(stocks) <= |stocks|
  {
    FilterDisjointCount(stocks, IsGainer, IsLoser);
  }

  /** The gainers tally counts the stocks the "gainers" selection shows with
      no other filter. */
  lemma GainersTallyMatchesFilter(stocks: seq<StockData>)
    ensures Gainers(stocks) == |FilteredStocks(stocks, "", "", "gainers")|
  {
    FilterSameCount(stocks, IsGainer, Selected("", "", "gainers"));
  }

  /** Filters that agree on every element keep the same number of elements. */
  lemma {:induction false} FilterSameCount(s: seq<StockData>, p: StockData -> bool, q: StockData -> bool)
    requires forall i :: 0 <= i < |s| ==> p(s[i]) == q(s[i])
    ensures |Filter(s, p)| == |Filter(s, q)|
  {
    if s != [] {
      FilterSameCount(s[1..], p, q);
    }
  }

  // ---------------------------------------------------------------------------
  // Sector options

  /** `Array.from(new Set(stocks.map(s => s.sector).filter(Boolean)))`: each
      non-empty sector once, in order of first appearance. */
  function Sectors(stocks: seq<StockData>): (r: seq<string>)
    ensures forall i, j :: 0 <= i < j < |r| ==> r[i] != r[j]
    ensures forall i :: 0 <= i < |r| ==> r[i] != ""
    ensures forall v :: v in r <==> exists k :: 0 <= k < |stocks| && stocks[k].sector == Some(v) && v != ""
    decreases |stocks|
  {
    if stocks == [] then []
    else
      var prev := Sectors(stocks[..|stocks| - 1]);
      var last := stocks[|stocks| - 1].sector;
      assert forall k :: 0 <= k < |stocks| - 1 ==> stocks[..|stocks| - 1][k] == stocks[k];
      if last.Some? && last.value != "" && last.value !in prev then prev + [last.value] else prev
  }
}
