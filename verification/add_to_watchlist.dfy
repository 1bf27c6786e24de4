/** The add-to-watchlist dialog (components/add-to-watchlist.tsx): the stocks matching the
    search box, unlisted ones first and each part by symbol, with an add button that is
    inert for listed stocks. */
module AddToWatchlist {
  import opened Wrappers
  import opened Seqs
  import opened Text
  import opened MarketWatchlist

  /** The dialog's comparator as an order: an unlisted stock comes before a listed one;
      within the same part, symbols are compared. */
  predicate DialogLe(wl: Watchlist, a: MarketStock, b: MarketStock)
  {
    if (a.symbol in wl) == (b.symbol in wl) then LexLe(a.symbol, b.symbol) else b.symbol in wl
  }

  /** The comparator is a total preorder, so sorting by it is well defined. */
  lemma DialogLeIsTotalPreorder(wl: Watchlist)
    ensures TotalPreorder((a: MarketStock, b: MarketStock) => DialogLe(wl, a, b))
  {
    LexLeIsTotalPreorder();
    forall a: MarketStock, b: MarketStock, c: MarketStock | DialogLe(wl, a, b) && DialogLe(wl, b, c)
      ensures DialogLe(wl, a, c)
    {
      if (a.symbol in wl) == (b.symbol in wl) && (b.symbol in wl) == (c.symbol in wl) {
        LexLeTrans(a.symbol, b.symbol, c.symbol);
      }
    }
    forall a: MarketStock, b: MarketStock
      ensures DialogLe(wl, a, b) || DialogLe(wl, b, a)
    {
      LexLeTotal(a.symbol, b.symbol);
    }
  }

  /** `filteredStocks`: the matching stocks sorted by the dialog's order. */
  function FilteredStocks(allStocks: seq<MarketStock>, wl: Watchlist, term: string): (r: seq<MarketStock>)
    ensures multiset(r) == multiset(Filter(allStocks, (s: MarketStock) => MatchesSearch(s, term)))
    ensures forall s :: s in r <==> s in allStocks && MatchesSearch(s, term)
    ensures forall i, j :: 0 <= i < j < |r| && r[i].symbol in wl ==> r[j].symbol in wl
    ensures forall i, j :: 0 <= i < j < |r| && (r[i].symbol in wl) == (r[j].symbol in wl) ==>
              LexLe(r[i].symbol, r[j].symbol)
  {
    var matching := Filter(allStocks, (s: MarketStock) => MatchesSearch(s, term));
    DialogLeIsTotalPreorder(wl);
    var r := SortBy(matching, (a: MarketStock, b: MarketStock) => DialogLe(wl, a, b));
    SameMembers(r, matching);
    r
  }

  /** The add button: it calls `onAddStock` with the symbol only for an unlisted stock. */
  function AddClick(wl: Watchlist, s: MarketStock): (r: Option<string>)
    ensures r.Some? <==> s.symbol !in wl
    ensures r.Some? ==> r.value == s.symbol
  {
    if s.symbol in wl then None else Some(s.symbol)
  }

  /** What a click leaves behind once the watchlist card handles it. */
  function AfterClick(wl: Watchlist, s: MarketStock): Watchlist
  {
    match AddClick(wl, s)
    case None => wl
    case Some(symbol) => MarketWatchlist.AddSymbol(wl, symbol)
  }

  /** A click grows the list by exactly one new symbol or leaves it alone; either way the
      stock is listed afterwards and a duplicate-free list stays duplicate-free. */
  lemma ClickAddsOnce(wl: Watchlist, s: MarketStock)
    requires NoDuplicates(wl)
    ensures var r := AfterClick(wl, s);
      && s.symbol in r && NoDuplicates(r)
      && (s.symbol in wl ==> r == wl)
      && (s.symbol !in wl ==> r == wl + [s.symbol])
  {
  }

  /** After a click the stock moves into the listed part of the dialog: it sorts after every
      stock that is still unlisted. */
  lemma ClickedStockSinks(allStocks: seq<MarketStock>, wl: Watchlist, s: MarketStock, term: string)
    requires s in allStocks && MatchesSearch(s, term)
    ensures var r := FilteredStocks(allStocks, AfterClick(wl, s), term);
      forall i, j :: 0 <= i < |r| && 0 <= j < |r| && r[j] == s && r[i].symbol !in AfterClick(wl, s) ==> i < j
  {
  }
}
