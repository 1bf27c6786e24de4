/** The symbol catalogue helpers (components/stock-symbols-data.tsx): search over the
    catalogue and grouping by sector. The catalogue is a parameter. */
module StockSymbols {
  import opened Wrappers
  import opened Seqs
  import opened Text

  /** One catalogue entry. */
  datatype Stock = Stock(symbol: string, name: string, sector: string)

  /** The lowercased term occurs in the lowercased symbol, name or sector. */
  predicate MatchesTerm(s: Stock, term: string)
  {
    var t := Lower(term);
    Contains(Lower(s.symbol), t) || Contains(Lower(s.name), t) || Contains(Lower(s.sector), t)
  }

  /** `filterSymbols`: the whole catalogue for an empty term, otherwise the entries the term
      matches, in catalogue order. */
  function FilterSymbols(catalog: seq<Stock>, term: string): (r: seq<Stock>)
    ensures term == "" ==> r == catalog
    ensures forall s :: s in r <==> s in catalog && (term == "" || MatchesTerm(s, term))
    ensures forall s :: multiset(r)[s] == (if term == "" || MatchesTerm(s, term) then multiset(catalog)[s] else 0)
    ensures IsSubsequence(r, catalog)
  {
    SubsequenceRefl(catalog);
    if term == "" then catalog else Filter(catalog, (s: Stock) => MatchesTerm(s, term))
  }

  /** The empty term needs no special case: every entry matches it anyway. */
  lemma EmptyTermMatchesAll(catalog: seq<Stock>)
    ensures Filter(catalog, (s: Stock) => MatchesTerm(s, "")) == FilterSymbols(catalog, "")
  {
    forall s | s in catalog
      ensures MatchesTerm(s, "")
    {
      ContainsEmpty(Lower(s.symbol));
    }
    FilterAll(catalog, (s: Stock) => MatchesTerm(s, ""));
  }

  // ---------------------------------------------------------------------------------------
  // Grouping by sector
  // ---------------------------------------------------------------------------------------

  /** One entry of the `Record<string, …>` the grouping builds, listed in order of first
      appearance. */
  datatype Group = Group(sector: string, stocks: seq<Stock>)

  /** The catalogue entries of one sector, in catalogue order. */
  function SectorEntries(catalog: seq<Stock>, sector: string): seq<Stock>
  {
    if catalog == [] then []
    else
      var last := catalog[|catalog| - 1];
      SectorEntries(catalog[..|catalog| - 1], sector) + (if last.sector == sector then [last] else [])
  }

  /** A sector's group holds exactly the catalogue entries of that sector. */
  lemma {:induction false} SectorEntriesMembers(catalog: seq<Stock>, sector: string)
    ensures forall x :: x in SectorEntries(catalog, sector) <==> x in catalog && x.sector == sector
  {
    if catalog != [] {
      var init := catalog[..|catalog| - 1];
      assert catalog == init + [catalog[|catalog| - 1]];
      SectorEntriesMembers(init, sector);
    }
  }

  /** The sector's entries are the catalogue filtered on the sector. */
  lemma {:induction false} SectorEntriesIsFilter(catalog: seq<Stock>, sector: string)
    ensures SectorEntries(catalog, sector) == Filter(catalog, (s: Stock) => s.sector == sector)
  {
    if catalog != [] {
      var init, last := catalog[..|catalog| - 1], catalog[|catalog| - 1];
      assert catalog == init + [last];
      SectorEntriesIsFilter(init, sector);
      FilterAppend(init, [last], (s: Stock) => s.sector == sector);
    }
  }

  /** A sector no entry belongs to has no entries. */
  lemma {:induction false} SectorEntriesNone(catalog: seq<Stock>, sector: string)
    requires forall k :: 0 <= k < |catalog| ==> catalog[k].sector != sector
    ensures SectorEntries(catalog, sector) == []
  {
    if catalog != [] {
      SectorEntriesNone(catalog[..|catalog| - 1], sector);
    }
  }

  /** The position of the group keyed by `sector`. */
  function FindSector(groups: seq<Group>, sector: string): (r: Option<nat>)
    ensures r.Some? ==> r.value < |groups| && groups[r.value].sector == sector
    ensures r.None? <==> forall j :: 0 <= j < |groups| ==> groups[j].sector != sector
  {
    if groups == [] then None
    else if groups[0].sector == sector then Some(0)
    else match FindSector(groups[1..], sector)
      case None => None
      case Some(k) => Some(k + 1)
  }

  /** No key is used twice. */
  predicate DistinctSectors(groups: seq<Group>)
  {
    forall i, j :: 0 <= i < j < |groups| ==> groups[i].sector != groups[j].sector
  }

  /** The total number of entries over all groups. */
  function SizeSum(groups: seq<Group>): nat
  {
    if groups == [] then 0 else |groups[0].stocks| + SizeSum(groups[1..])
  }

  lemma {:induction false} SizeSumAppend(groups: seq<Group>, g: Group)
    ensures SizeSum(groups + [g]) == SizeSum(groups) + |g.stocks|
  {
    if groups != [] {
      assert (groups + [g])[1..] == groups[1..] + [g];
      SizeSumAppend(groups[1..], g);
    }
  }

  lemma {:induction false} SizeSumUpdate(groups: seq<Group>, k: nat, g: Group)
    requires k < |groups|
    ensures SizeSum(groups[k := g]) == SizeSum(groups) - |groups[k].stocks| + |g.stocks|
  {
    if k > 0 {
      assert groups[k := g][1..] == groups[1..][k - 1 := g];
      SizeSumUpdate(groups[1..], k - 1, g);
    }
  }

  /** `groups` is the grouping of `prefix`: distinct keys, each group holding exactly its
      sector's entries (and at least one), every entry's sector a key, and no entry lost. */
  predicate Grouped(prefix: seq<Stock>, groups: seq<Group>)
  {
    && DistinctSectors(groups)
    && (forall j :: 0 <= j < |groups| ==>
          groups[j].stocks == SectorEntries(prefix, groups[j].sector) && groups[j].stocks != [])
    && (forall k :: 0 <= k < |prefix| ==> FindSector(groups, prefix[k].sector).Some?)
    && SizeSum(groups) == |prefix|
  }

  /** One step of the `forEach`: push the entry onto its sector's group, creating the group
      first when the sector is new. */
  function AddStock(groups: seq<Group>, x: Stock): seq<Group>
  {
    match FindSector(groups, x.sector)
    case Some(k) => groups[k := Group(x.sector, groups[k].stocks + [x])]
    case None => groups + [Group(x.sector, [x])]
  }

  /** A step keeps the grouping exact, for an entry whose sector already has a group. */
  lemma AddStockKnown(prefix: seq<Stock>, groups: seq<Group>, x: Stock)
    requires Grouped(prefix, groups)
    requires FindSector(groups, x.sector).Some?
    ensures Grouped(prefix + [x], AddStock(groups, x))
  {
    var k := FindSector(groups, x.sector).value;
    var g := AddStock(groups, x);
    var p := prefix + [x];
    assert p[..|p| - 1] == prefix;
    SizeSumUpdate(groups, k, Group(x.sector, groups[k].stocks + [x]));
    forall k' | 0 <= k' < |p|
      ensures FindSector(g, p[k'].sector).Some?
    {
      var j := FindSector(groups, p[k'].sector).value;
      assert g[j].sector == p[k'].sector;
    }
  }

  /** A step keeps the grouping exact, for an entry whose sector is new. */
  lemma AddStockNew(prefix: seq<Stock>, groups: seq<Group>, x: Stock)
    requires Grouped(prefix, groups)
    requires FindSector(groups, x.sector).None?
    ensures Grouped(prefix + [x], AddStock(groups, x))
  {
    var g := AddStock(groups, x);
    var p := prefix + [x];
    assert p[..|p| - 1] == prefix;
    forall k' | 0 <= k' < |prefix|
      ensures prefix[k'].sector != x.sector
    {
      var j := FindSector(groups, prefix[k'].sector).value;
      assert groups[j].sector == prefix[k'].sector;
    }
    SectorEntriesNone(prefix, x.sector);
    SizeSumAppend(groups, Group(x.sector, [x]));
    assert g == groups + [Group(x.sector, [x])];
    forall j | 0 <= j < |g|
      ensures g[j].stocks == SectorEntries(p, g[j].sector) && g[j].stocks != []
    {
      if j < |groups| {
        assert g[j] == groups[j];
        assert groups[j].sector != x.sector;
      }
    }
    assert DistinctSectors(g) by {
      forall i, j | 0 <= i < j < |g|
        ensures g[i].sector != g[j].sector
      {
        if j == |groups| {
          assert g[i] == groups[i];
        }
      }
    }
    forall k' | 0 <= k' < |p|
      ensures FindSector(g, p[k'].sector).Some?
    {
      if k' < |prefix| {
        var j := FindSector(groups, p[k'].sector).value;
        assert g[j].sector == p[k'].sector;
      } else {
        assert g[|g| - 1].sector == p[k'].sector;
      }
    }
  }

  /** `getSymbolsBySector`: one group per sector in order of first appearance, each holding
      that sector's entries in catalogue order. */
  method SymbolsBySector(catalog: seq<Stock>) returns (groups: seq<Group>)
    ensures groups == [] <==> catalog == []
    ensures DistinctSectors(groups)
    ensures forall j :: 0 <= j < |groups| ==>
      groups[j].stocks == SectorEntries(catalog, groups[j].sector) && groups[j].stocks != []
    ensures forall k :: 0 <= k < |catalog| ==> FindSector(groups, catalog[k].sector).Some?
    ensures SizeSum(groups) == |catalog|
  {
    groups := [];
    var i := 0;
    while i < |catalog|
      invariant 0 <= i <= |catalog|
      invariant Grouped(catalog[..i], groups)
    {
      assert catalog[..i + 1] == catalog[..i] + [catalog[i]];
      if FindSector(groups, catalog[i].sector).Some? {
        AddStockKnown(catalog[..i], groups, catalog[i]);
      } else {
        AddStockNew(catalog[..i], groups, catalog[i]);
      }
      groups := AddStock(groups, catalog[i]);
      i := i + 1;
    }
    assert catalog[..|catalog|] == catalog;
  }

  /** Every entry lands in exactly one group: the one keyed by its sector. */
  lemma EachStockInOneGroup(catalog: seq<Stock>, groups: seq<Group>, k: int)
    requires DistinctSectors(groups)
    requires forall j :: 0 <= j < |groups| ==> groups[j].stocks == SectorEntries(catalog, groups[j].sector)
    requires forall k' :: 0 <= k' < |catalog| ==> FindSector(groups, catalog[k'].sector).Some?
    requires 0 <= k < |catalog|
    ensures forall j :: 0 <= j < |groups| ==>
      (catalog[k] in groups[j].stocks <==> groups[j].sector == catalog[k].sector)
    ensures exists j :: 0 <= j < |groups| && catalog[k] in groups[j].stocks
  {
    var j := FindSector(groups, catalog[k].sector).value;
    forall j' | 0 <= j' < |groups|
      ensures catalog[k] in groups[j'].stocks <==> groups[j'].sector == catalog[k].sector
    {
      SectorEntriesMembers(catalog, groups[j'].sector);
    }
    assert catalog[k] in groups[j].stocks;
  }
}
