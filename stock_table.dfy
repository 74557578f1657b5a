/** The stock table component: the rows it shows are the stocks whose symbol
    or name contains the search term (ignoring case), sorted in place by the
    selected column with the component's comparator. */
module StockTable {
  import opened Schema
  import opened Seqs
  import opened Text

  // ---------------------------------------------------------------------------
  // Search

  /** The lower-cased search term occurs in the lower-cased symbol or name. */
  predicate MatchesSearch(s: StockData, term: string)
  {
    Includes(ToLower(s.symbol), ToLower(term)) || Includes(ToLower(s.name), ToLower(term))
  }

  function MatchesTerm(term: string): StockData -> bool
  {
    (s: StockData) => MatchesSearch(s, term)
  }

  /** `stocks.filter(...)` on the search term. */
  function SearchFilter(stocks: seq<StockData>, term: string): seq<StockData>
  {
    Filter(stocks, MatchesTerm(term))
  }

  /** The empty string occurs in every string, so every stock matches the empty term. */
  lemma EmptyTermMatches(s: StockData)
    ensures MatchesSearch(s, "")
  {
    assert ToLower("") == "";
  }

  /** The search keeps exactly the matching stocks, in their order, and keeps
      every stock when the term is empty. */
  lemma SearchFilterExact(stocks: seq<StockData>, term: string)
    ensures forall x :: x in SearchFilter(stocks, term) <==> x in stocks && MatchesSearch(x, term)
    ensures forall x :: multiset(SearchFilter(stocks, term))[x] == if MatchesSearch(x, term) then multiset(stocks)[x] else 0
    ensures Subsequence(SearchFilter(stocks, term), stocks)
    ensures term == "" ==> SearchFilter(stocks, term) == stocks
  {
    FilterMembership(stocks, MatchesTerm(term));
    FilterMultiset(stocks, MatchesTerm(term));
    FilterSubsequence(stocks, MatchesTerm(term));
    if term == "" {
      forall i | 0 <= i < |stocks| ensures MatchesTerm(term)(stocks[i]) {
        EmptyTermMatches(stocks[i]);
      }
      FilterKeepsAll(stocks, MatchesTerm(term));
    }
  }

  // ---------------------------------------------------------------------------
  // Comparator

  /** A column's value as the comparator sees it: a string, a number, or
      anything else (a null market cap or sector). */
  datatype FieldValue = Str(text: string) | Num(number: real) | Null

  /** The row id as the client receives it: a string. The store's ids are
      counters, written here in decimal. */
  function IdText(n: nat): string
  {
    var digit := ['0', '1', '2', '3', '4', '5', '6', '7', '8', '9'][n % 10];
    if n < 10 then [digit] else IdText(n / 10) + [digit]
  }

  /** `stock[key]`. */
  function FieldOf(s: StockData, key: SortKey): FieldValue
  {
    match key
    case Id => Str(IdText(s.id))
    case Symbol => Str(s.symbol)
    case Name => Str(s.name)
    case Price => Num(s.price)
    case Change => Num(s.change)
    case ChangePercent => Num(s.changePercent)
    case Volume => Num(s.volume as real)
    case MarketCap => (match s.marketCap case Some(v) => Num(v) case None => Null)
    case Sector => (match s.sector case Some(v) => Str(v) case None => Null)
    case LastUpdated => Num(s.lastUpdated as real)
  }

  /** The sort callback: `localeCompare` for two strings, subtraction for two
      numbers, the arguments swapped for descending order, and 0 for values
      of different kinds. */
  function Compare(x: StockData, y: StockData, key: SortKey, dir: Direction): real
  {
    match (FieldOf(x, key), FieldOf(y, key))
    case (Str(a), Str(b)) => if dir == Asc then LocaleCompare(a, b) as real else LocaleCompare(b, a) as real
    case (Num(a), Num(b)) => if dir == Asc then a - b else b - a
    case _ => 0.0
  }

  /** A column every row fills with the same kind of value; only the two
      nullable columns are not. */
  predicate TotalKey(key: SortKey)
  {
    key != MarketCap && key != Sector
  }

  /** Descending order is ascending order with the arguments swapped. */
  lemma CompareDescIsSwappedAsc(x: StockData, y: StockData, key: SortKey)
    ensures Compare(x, y, key, Desc) == Compare(y, x, key, Asc)
  {
  }

  /** Values of different kinds (a number and a null, say) compare equal. */
  lemma CompareMismatchedIsZero(x: StockData, y: StockData, key: SortKey, dir: Direction)
    requires FieldOf(x, key).Null? || FieldOf(y, key).Null? || FieldOf(x, key).Str? != FieldOf(y, key).Str?
    ensures Compare(x, y, key, dir) == 0.0
  {
  }

  /** Swapping the arguments negates the comparator. */
  lemma CompareAntisymmetric(x: StockData, y: StockData, key: SortKey, dir: Direction)
    ensures Compare(y, x, key, dir) == -Compare(x, y, key, dir)
  {
    match (FieldOf(x, key), FieldOf(y, key)) {
      case (Str(a), Str(b)) => LocaleCompareSwap(a, b);
      case _ =>
    }
  }

  /** On a column without nulls the comparator is transitive. */
  lemma CompareTransitive(x: StockData, y: StockData, z: StockData, key: SortKey, dir: Direction)
    requires TotalKey(key)
    requires Compare(x, y, key, dir) <= 0.0 && Compare(y, z, key, dir) <= 0.0
    ensures Compare(x, z, key, dir) <= 0.0
  {
    match (FieldOf(x, key), FieldOf(y, key), FieldOf(z, key)) {
      case (Str(a), Str(b), Str(c)) =>
        if dir == Asc {
          LocaleCompareNonPositive(a, b);
          LocaleCompareNonPositive(b, c);
          LocaleCompareNonPositive(a, c);
          StrLeTransitive(a, b, c);
        } else {
          LocaleCompareNonPositive(b, a);
          LocaleCompareNonPositive(c, b);
          LocaleCompareNonPositive(c, a);
          StrLeTransitive(c, b, a);
        }
      case _ =>
    }
  }

  /** Every pair of positions is in the order of the table's callback for
      `key` and `dir`. */
  ghost predicate SortedBy(s: seq<StockData>, key: SortKey, dir: Direction)
  {
    SortedUnder(s, Comparator(key, dir))
  }

  /** The numeric value of a number column. */
  function NumberOf(s: StockData, key: SortKey): real
  {
    match FieldOf(s, key)
    case Num(v) => v
    case _ => 0.0
  }

  /** Sorted by a number column means non-decreasing values ascending and
      non-increasing values descending. */
  lemma SortedByNumber(s: seq<StockData>, key: SortKey, dir: Direction)
    requires key in {Price, Change, ChangePercent, Volume, LastUpdated}
    requires SortedBy(s, key, dir)
    ensures dir == Asc ==> forall i, j :: 0 <= i < j < |s| ==> NumberOf(s[i], key) <= NumberOf(s[j], key)
    ensures dir == Desc ==> forall i, j :: 0 <= i < j < |s| ==> NumberOf(s[i], key) >= NumberOf(s[j], key)
  {
    forall i, j | 0 <= i < j < |s|
      ensures dir == Asc ==> NumberOf(s[i], key) <= NumberOf(s[j], key)
      ensures dir == Desc ==> NumberOf(s[i], key) >= NumberOf(s[j], key)
    {
      assert Compare(s[i], s[j], key, dir) <= 0.0;
    }
  }

  // ---------------------------------------------------------------------------
  // Sorting the table

  /** `cmp` orders its arguments consistently: a positive answer reverses when
      the arguments are swapped, and "sorts no later" is transitive. */
  ghost predicate ConsistentOrder<T(!new)>(cmp: (T, T) -> real)
  {
    && (forall x, y :: cmp(x, y) > 0.0 ==> cmp(y, x) <= 0.0)
    && (forall x, y, z :: cmp(x, y) <= 0.0 && cmp(y, z) <= 0.0 ==> cmp(x, z) <= 0.0)
  }

  /** Every pair of positions is in `cmp` order. */
  ghost predicate SortedUnder<T>(s: seq<T>, cmp: (T, T) -> real)
  {
    forall i, j :: 0 <= i < j < |s| ==> cmp(s[i], s[j]) <= 0.0
  }

  /** The table's sort callback for a column and direction. */
  function Comparator(key: SortKey, dir: Direction): (StockData, StockData) -> real
  {
    (x: StockData, y: StockData) => Compare(x, y, key, dir)
  }

  /** On a column without nulls the table's callback is a consistent order. */
  lemma ComparatorConsistent(key: SortKey, dir: Direction)
    requires TotalKey(key)
    ensures ConsistentOrder(Comparator(key, dir))
  {
    var cmp := Comparator(key, dir);
    forall x, y | cmp(x, y) > 0.0 ensures cmp(y, x) <= 0.0 {
      CompareAntisymmetric(x, y, key, dir);
    }
    forall x, y, z | cmp(x, y) <= 0.0 && cmp(y, z) <= 0.0 ensures cmp(x, z) <= 0.0 {
      CompareTransitive(x, y, z, key, dir);
    }
  }

  /** `array.sort(cmp)`: rearranges `a` in place; when `cmp` is a consistent
      order the result is in `cmp` order. An inconsistent callback (a
      nullable column) only promises the rearrangement. */
  method SortInPlace<T(!new)>(a: array<T>, cmp: (T, T) -> real)
    modifies a
    ensures multiset(a[..]) == multiset(old(a[..]))
    ensures ConsistentOrder(cmp) ==> SortedUnder(a[..], cmp)
  {
    var i := 0;
    while i < a.Length
      invariant 0 <= i <= a.Length
      invariant multiset(a[..]) == multiset(old(a[..]))
      invariant ConsistentOrder(cmp) ==> SortedUnder(a[..i], cmp)
    {
      InsertLast(a, i, cmp);
      i := i + 1;
    }
    assert a[..a.Length] == a[..];
  }

  /** One pass of insertion sort: moves `a[i]` left past every larger
      element, so that `a[..i + 1]` is in order when `a[..i]` was. */
  method InsertLast<T(!new)>(a: array<T>, i: nat, cmp: (T, T) -> real)
    requires i < a.Length
    modifies a
    ensures multiset(a[..]) == multiset(old(a[..]))
    ensures multiset(a[..i + 1]) == multiset(old(a[..i + 1]))
    ensures a[i + 1..] == old(a[i + 1..])
    ensures ConsistentOrder(cmp) && SortedUnder(old(a[..i]), cmp) ==> SortedUnder(a[..i + 1], cmp)
  {
    ghost var ordered := ConsistentOrder(cmp) && SortedUnder(a[..i], cmp);
    if ordered {
      HoleOpened(a[..], i, cmp);
    }
    var j := i;
    while j > 0 && cmp(a[j - 1], a[j]) > 0.0
      invariant 0 <= j <= i
      invariant multiset(a[..i + 1]) == multiset(old(a[..i + 1]))
      invariant a[i + 1..] == old(a[i + 1..])
      invariant ordered ==> ConsistentOrder(cmp) && Hole(a[..], i, j, cmp)
    {
      ghost var s := a[..];
      Swap(a, j - 1, j);
      assert a[..] == s[j - 1 := s[j]][j := s[j - 1]];
      SwapInPrefix(s, j - 1, j, i + 1);
      if ordered {
        HoleSwap(s, i, j, cmp);
      }
      j := j - 1;
    }
    if ordered {
      HoleClosed(a[..], i, j, cmp);
    }
    assert a[..] == a[..i + 1] + a[i + 1..];
    assert old(a[..]) == old(a[..i + 1]) + old(a[i + 1..]);
  }

  /** Exchanges two elements of `a`. */
  method Swap<T>(a: array<T>, i: nat, j: nat)
    requires i < j < a.Length
    modifies a
    ensures a[..] == old(a[..])[i := old(a[j])][j := old(a[i])]
    ensures multiset(a[..]) == multiset(old(a[..]))
  {
    a[i], a[j] := a[j], a[i];
  }

  /** Exchanging two elements inside the prefix `s[..n]` rearranges that
      prefix and leaves the rest as it was. */
  lemma SwapInPrefix<T>(s: seq<T>, x: nat, y: nat, n: nat)
    requires x < y < n <= |s|
    ensures multiset(s[x := s[y]][y := s[x]][..n]) == multiset(s[..n])
    ensures s[x := s[y]][y := s[x]][n..] == s[n..]
  {
    var t := s[x := s[y]][y := s[x]];
    assert t[..n] == s[..n][x := s[y]][y := s[x]];
  }

  /** The state of an insertion pass over `s[..i + 1]` with the moving element
      at `j`: the other elements are in order, and the moving element sorts no
      later than everything to its right. */
  ghost predicate Hole<T>(s: seq<T>, i: nat, j: nat, cmp: (T, T) -> real)
    requires j <= i < |s|
  {
    && (forall k, l :: 0 <= k < l <= i && k != j && l != j ==> cmp(s[k], s[l]) <= 0.0)
    && (forall l :: j < l <= i ==> cmp(s[j], s[l]) <= 0.0)
  }

  /** The pass starts with the hole at `i` over an ordered prefix. */
  lemma HoleOpened<T>(s: seq<T>, i: nat, cmp: (T, T) -> real)
    requires i < |s|
    requires SortedUnder(s[..i], cmp)
    ensures Hole(s, i, i, cmp)
  {
    assert forall k :: 0 <= k < i ==> s[..i][k] == s[k];
  }

  /** Swapping the moving element with a larger left neighbour moves the hole one step left. */
  lemma HoleSwap<T(!new)>(s: seq<T>, i: nat, j: nat, cmp: (T, T) -> real)
    requires 0 < j <= i < |s|
    requires ConsistentOrder(cmp) && Hole(s, i, j, cmp)
    requires cmp(s[j - 1], s[j]) > 0.0
    ensures Hole(s[j - 1 := s[j]][j := s[j - 1]], i, j - 1, cmp)
  {
    var t := s[j - 1 := s[j]][j := s[j - 1]];
    assert cmp(s[j], s[j - 1]) <= 0.0;
    forall k, l | 0 <= k < l <= i && k != j - 1 && l != j - 1 ensures cmp(t[k], t[l]) <= 0.0 {
      if l == j {
        assert t[l] == s[j - 1] && t[k] == s[k];
      } else if k == j {
        assert t[k] == s[j - 1] && t[l] == s[l];
      }
    }
  }

  /** The pass stops with the hole at `j` when its left neighbour is no
      larger; then the whole prefix is in order. */
  lemma HoleClosed<T(!new)>(s: seq<T>, i: nat, j: nat, cmp: (T, T) -> real)
    requires j <= i < |s|
    requires ConsistentOrder(cmp) && Hole(s, i, j, cmp)
    requires j > 0 ==> cmp(s[j - 1], s[j]) <= 0.0
    ensures SortedUnder(s[..i + 1], cmp)
  {
    forall k, l | 0 <= k < l <= i ensures cmp(s[k], s[l]) <= 0.0 {
      if l == j && k < j - 1 {
        assert cmp(s[k], s[j - 1]) <= 0.0;
      }
    }
    assert forall k :: 0 <= k <= i ==> s[..i + 1][k] == s[k];
  }

  /** `filteredAndSortedStocks`: the matching stocks, sorted on a copy when a
      column is selected and in their given order otherwise. */
  method FilteredAndSortedStocks(stocks: seq<StockData>, term: string, cfg: SortConfig) returns (r: seq<StockData>)
    ensures multiset(r) == multiset(SearchFilter(stocks, term))
    ensures forall x :: x in r <==> x in stocks && MatchesSearch(x, term)
    ensures cfg.key.None? ==> r == SearchFilter(stocks, term)
    ensures cfg.key.Some? && TotalKey(cfg.key.value) ==> SortedBy(r, cfg.key.value, cfg.direction)
  {
    var filtered := SearchFilter(stocks, term);
    SearchFilterExact(stocks, term);
    if cfg.key.Some? {
      var a := new StockData[|filtered|](i requires 0 <= i < |filtered| => filtered[i]);
      assert a[..] == filtered;
      SortInPlace(a, Comparator(cfg.key.value, cfg.direction));
      if TotalKey(cfg.key.value) {
        ComparatorConsistent(cfg.key.value, cfg.direction);
      }
      r := a[..];
      forall x ensures x in r <==> x in filtered {
        assert x in r <==> x in multiset(r);
        assert x in filtered <==> x in multiset(filtered);
      }
    } else {
      r := filtered;
    }
  }

  // ---------------------------------------------------------------------------
  // Header icon

  datatype SortIcon = ChevronUp(highlighted: bool) | ChevronDown

  /** `getSortIcon(key)`: a down chevron only for the active column sorted
      descending; otherwise an up chevron, highlighted only on the active column. */
  function GetSortIcon(cfg: SortConfig, key: SortKey): (r: SortIcon)
    ensures r.ChevronDown? <==> cfg.key == Some(key) && cfg.direction == Desc
    ensures r.ChevronUp? ==> (r.highlighted <==> cfg.key == Some(key))
  {
    if cfg.key != Some(key) then ChevronUp(false)
    else match cfg.direction
      case Asc => ChevronUp(true)
      case Desc => ChevronDown
  }
}
