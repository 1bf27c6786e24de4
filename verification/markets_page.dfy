/** The markets table of the markets page (app/markets/page.tsx): rows narrowed by market
    and search box, ordered by daily change. */
module MarketsPage {
  import opened Seqs
  import opened Text

  /** One row of the page's market table. */
  datatype MarketRow = MarketRow(
    symbol: string,
    name: string,
    price: real,
    change: real,
    changePercent: real,
    volume: string,
    market: string)

  datatype SortOrder = Asc | Desc

  /** The page's controls: search box, market select and sort order. */
  datatype View = View(searchTerm: string, marketFilter: string, sortOrder: SortOrder)

  /** The page opens unfiltered, biggest gainers first. */
  function InitialView(): View
  {
    View("", "all", Desc)
  }

  /** The sort button flips the order. */
  function ToggleSortOrder(v: View): (r: View)
    ensures r.sortOrder != v.sortOrder
    ensures r.searchTerm == v.searchTerm && r.marketFilter == v.marketFilter
  {
    v.(sortOrder := if v.sortOrder == Asc then Desc else Asc)
  }

  /** Pressing the sort button twice changes nothing. */
  lemma ToggleTwice(v: View)
    ensures ToggleSortOrder(ToggleSortOrder(v)) == v
  {
  }

  /** A row passes the market select (or "all") and its lowercased symbol or name contains
      the lowercased search term. */
  predicate Shown(row: MarketRow, searchTerm: string, marketFilter: string)
  {
    && (marketFilter == "all" || row.market == marketFilter)
    && (Contains(Lower(row.symbol), Lower(searchTerm)) || Contains(Lower(row.name), Lower(searchTerm)))
  }

  /** The comparator: `a - b` on change percent ascending, `b - a` descending. */
  function ChangeOrder(order: SortOrder): (le: (MarketRow, MarketRow) -> bool)
    ensures TotalPreorder(le)
  {
    if order == Asc then (a: MarketRow, b: MarketRow) => a.changePercent <= b.changePercent
    else (a: MarketRow, b: MarketRow) => b.changePercent <= a.changePercent
  }

  /** `filteredMarkets`: the shown rows, reordered by change percent. */
  function FilteredMarkets(markets: seq<MarketRow>, v: View): (r: seq<MarketRow>)
    ensures multiset(r) == multiset(Filter(markets, (row: MarketRow) => Shown(row, v.searchTerm, v.marketFilter)))
    ensures forall row :: row in r <==> row in markets && Shown(row, v.searchTerm, v.marketFilter)
    ensures v.sortOrder == Asc ==>
      forall i, j :: 0 <= i < j < |r| ==> r[i].changePercent <= r[j].changePercent
    ensures v.sortOrder == Desc ==>
      forall i, j :: 0 <= i < j < |r| ==> r[i].changePercent >= r[j].changePercent
  {
    var shown := Filter(markets, (row: MarketRow) => Shown(row, v.searchTerm, v.marketFilter));
    var r := SortBy(shown, ChangeOrder(v.sortOrder));
    SameMembers(r, shown);
    r
  }

  /** On opening, every market is listed: the result is a reordering of the whole table. */
  lemma InitialViewShowsAll(markets: seq<MarketRow>)
    ensures multiset(FilteredMarkets(markets, InitialView())) == multiset(markets)
  {
    forall row | row in markets
      ensures Shown(row, "", "all")
    {
      ContainsEmpty(Lower(row.symbol));
    }
    FilterAll(markets, (row: MarketRow) => Shown(row, "", "all"));
  }

  /** Flipping the order shows the same rows. */
  lemma ToggleKeepsRows(markets: seq<MarketRow>, v: View)
    ensures multiset(FilteredMarkets(markets, ToggleSortOrder(v))) == multiset(FilteredMarkets(markets, v))
  {
    var w := ToggleSortOrder(v);
    assert w.searchTerm == v.searchTerm && w.marketFilter == v.marketFilter;
  }
}
