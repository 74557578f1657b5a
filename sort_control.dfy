/** The sort toggle shared by the dashboard and the watchlist page: clicking a
    column header selects that column, and clicking the selected column again
    flips the direction between ascending and descending. */
module SortControl {
  import opened Schema

  /** `requestSort(key)`: descending exactly when `key` is already the
      ascending sort column, ascending by `key` otherwise. */
  function RequestSort(cfg: SortConfig, key: SortKey): (r: SortConfig)
    ensures r.key == Some(key)
    ensures r.direction == Desc <==> cfg.key == Some(key) && cfg.direction == Asc
  {
    var direction := if cfg.key == Some(key) && cfg.direction == Asc then Desc else Asc;
    SortConfig(Some(key), direction)
  }

  /** Clicking the same column again always flips the direction, so repeated
      clicks alternate ascending and descending. */
  lemma RequestSortAlternates(cfg: SortConfig, key: SortKey)
    ensures RequestSort(RequestSort(cfg, key), key).direction != RequestSort(cfg, key).direction
    ensures RequestSort(RequestSort(cfg, key), key).key == Some(key)
  {
  }

  /** Two clicks on the column that is already sorted ascending come back to
      the same configuration. */
  lemma RequestSortTwiceRestores(cfg: SortConfig, key: SortKey)
    requires cfg.key == Some(key) && cfg.direction == Asc
    ensures RequestSort(RequestSort(cfg, key), key) == cfg
  {
  }

  /** Selecting a different column always starts ascending. */
  lemma RequestSortNewColumnAscends(cfg: SortConfig, key: SortKey)
    requires cfg.key != Some(key)
    ensures RequestSort(cfg, key) == SortConfig(Some(key), Asc)
  {
  }
}
