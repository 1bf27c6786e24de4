/** The watchlist card (components/market-watchlist.tsx): the watchlist is a list of
    symbols; the card shows the known stocks on it that match the search box. */
module MarketWatchlist {
  import opened Seqs
  import opened Text

  /** A row of `allStocksData`; the price columns play no part in the list logic. */
  datatype MarketStock = MarketStock(symbol: string, name: string, sector: string)

  type Watchlist = seq<string>

  /** No symbol is listed twice. */
  ghost predicate NoDuplicates(wl: Watchlist)
  {
    forall x :: multiset(wl)[x] <= 1
  }

  /** The watchlist a first-time user starts with. */
  function DefaultWatchlist(): (r: Watchlist)
    ensures NoDuplicates(r) && |r| == 5
  {
    var r := ["AAPL", "MSFT", "NVDA", "AMZN", "TSLA"];
    assert forall x :: x in multiset(r) ==> x in r;
    r
  }

  /** The lowercased search term occurs in the lowercased symbol or name. */
  predicate MatchesSearch(s: MarketStock, term: string)
  {
    Contains(Lower(s.symbol), Lower(term)) || Contains(Lower(s.name), Lower(term))
  }

  /** `filteredWatchlist`: the known stocks, in their own order, that are on the watchlist
      and match the search term. */
  function FilteredWatchlist(allStocks: seq<MarketStock>, wl: Watchlist, term: string): (r: seq<MarketStock>)
    ensures forall s :: s in r <==> s in allStocks && s.symbol in wl && MatchesSearch(s, term)
    ensures forall s :: multiset(r)[s] ==
                        (if s.symbol in wl && MatchesSearch(s, term) then multiset(allStocks)[s] else 0)
    ensures IsSubsequence(r, allStocks)
  {
    var onList := Filter(allStocks, (s: MarketStock) => s.symbol in wl);
    var r := Filter(onList, (s: MarketStock) => MatchesSearch(s, term));
    SubsequenceTrans(r, onList, allStocks);
    r
  }

  /** With an empty search box every watchlisted stock is shown. */
  lemma EmptySearchShowsWatchlist(allStocks: seq<MarketStock>, wl: Watchlist)
    ensures forall s :: s in FilteredWatchlist(allStocks, wl, "") <==> s in allStocks && s.symbol in wl
  {
    forall s | s in allStocks
      ensures MatchesSearch(s, "")
    {
      ContainsEmpty(Lower(s.symbol));
    }
  }

  /** `toggleWatchlist`: a listed symbol is removed (every occurrence), others stay in
      order; an unlisted one is appended. */
  function Toggle(wl: Watchlist, symbol: string): (r: Watchlist)
    ensures symbol in r <==> symbol !in wl
    ensures symbol in wl ==> IsSubsequence(r, wl) && forall x :: x in r <==> x in wl && x != symbol
    ensures symbol in wl ==> forall x :: multiset(r)[x] == if x == symbol then 0 else multiset(wl)[x]
    ensures symbol !in wl ==> r == wl + [symbol]
  {
    if symbol in wl then Filter(wl, (x: string) => x != symbol) else wl + [symbol]
  }

  /** Toggling an unlisted symbol twice restores the watchlist exactly. */
  lemma ToggleTwiceRestores(wl: Watchlist, symbol: string)
    requires symbol !in wl
    ensures Toggle(Toggle(wl, symbol), symbol) == wl
  {
    var keep := (x: string) => x != symbol;
    FilterAppend(wl, [symbol], keep);
    FilterAll(wl, keep);
    assert Filter([symbol], keep) == [];
  }

  /** Toggling a listed symbol twice keeps the same symbols, the toggled one now last. */
  lemma ToggleTwiceMovesLast(wl: Watchlist, symbol: string)
    requires symbol in wl
    ensures var r := Toggle(Toggle(wl, symbol), symbol);
      (forall x :: x in r <==> x in wl) && r[|r| - 1] == symbol
  {
  }

  /** Toggling keeps a duplicate-free watchlist duplicate-free. */
  lemma ToggleKeepsNoDuplicates(wl: Watchlist, symbol: string)
    requires NoDuplicates(wl)
    ensures NoDuplicates(Toggle(wl, symbol))
  {
    if symbol !in wl {
      assert multiset(wl + [symbol]) == multiset(wl) + multiset{symbol};
    }
  }

  /** `handleAddToWatchlist`: append the symbol unless it is already listed. */
  function AddSymbol(wl: Watchlist, symbol: string): (r: Watchlist)
    ensures symbol in r
    ensures NoDuplicates(wl) ==> NoDuplicates(r)
    ensures forall x :: x in r <==> x in wl || x == symbol
    ensures wl <= r && |r| <= |wl| + 1
  {
    if symbol in wl then wl
    else
      assert multiset(wl + [symbol]) == multiset(wl) + multiset{symbol};
      wl + [symbol]
  }

  /** Adding is idempotent: a second add of the same symbol changes nothing. */
  lemma AddIdempotent(wl: Watchlist, symbol: string)
    ensures AddSymbol(AddSymbol(wl, symbol), symbol) == AddSymbol(wl, symbol)
  {
  }

  /** Adding an unlisted symbol is the same as toggling it. */
  lemma AddAgreesWithToggle(wl: Watchlist, symbol: string)
    requires symbol !in wl
    ensures AddSymbol(wl, symbol) == Toggle(wl, symbol)
  {
  }

  /** A known stock that matches the search is displayed once its symbol is added. */
  lemma AddedStockShown(allStocks: seq<MarketStock>, wl: Watchlist, s: MarketStock, term: string)
    requires s in allStocks && MatchesSearch(s, term)
    ensures s in FilteredWatchlist(allStocks, AddSymbol(wl, s.symbol), term)
  {
  }
}
