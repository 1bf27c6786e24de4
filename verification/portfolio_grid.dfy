/** The portfolio grid (components/portfolio-grid.tsx): search and column filters, the
    sortable columns, pagination with its page-link strip, and deletion. */
module PortfolioGrid {
  import opened Wrappers
  import opened Seqs
  import opened Text

  /** One asset line of a portfolio: a symbol and its percentage of the portfolio. */
  datatype Allocation = Allocation(symbol: string, allocation: real)

  /** One portfolio row. `kind` is the source's `type`. */
  datatype PortfolioItem = PortfolioItem(
    id: string,
    name: string,
    kind: string,
    totalValue: real,
    currency: string,
    riskLevel: string,
    returnRate: real,
    lastUpdated: string,
    assets: seq<Allocation>)

  /** The columns of a row that a filter or the sort can name. */
  datatype Field = IdField | NameField | TypeField | TotalValueField | CurrencyField
                 | RiskLevelField | ReturnRateField | LastUpdatedField

  /** The columns holding strings; the others hold numbers. */
  predicate IsText(f: Field)
  {
    !(f.TotalValueField? || f.ReturnRateField?)
  }

  /** The value of a string column. */
  function TextOf(item: PortfolioItem, f: Field): string
  {
    match f
    case IdField => item.id
    case NameField => item.name
    case TypeField => item.kind
    case CurrencyField => item.currency
    case RiskLevelField => item.riskLevel
    case LastUpdatedField => item.lastUpdated
    case _ => ""
  }

  /** The value of a numeric column. */
  function NumberOf(item: PortfolioItem, f: Field): real
  {
    if f.TotalValueField? then item.totalValue else if f.ReturnRateField? then item.returnRate else 0.0
  }

  datatype SortDirection = Asc | Desc

  /** The grid's view state; an absent filter key is `undefined`. */
  datatype GridState = GridState(
    search: string,
    currentPage: int,
    pageSize: int,
    sortField: Field,
    sortDirection: SortDirection,
    filters: map<Field, string>)

  /** The state the grid opens with. */
  function InitialState(): GridState
  {
    GridState("", 1, 5, NameField, Asc, map[])
  }

  // ---------------------------------------------------------------------------------------
  // Filtering
  // ---------------------------------------------------------------------------------------

  /** One set filter holds: a string filter value never equals a number, so a filter on a
      numeric column rejects every row. */
  predicate FilterHolds(item: PortfolioItem, f: Field, v: string)
  {
    IsText(f) && TextOf(item, f) == v
  }

  /** The row passes the search box and every filter whose value is non-empty. */
  predicate Keep(item: PortfolioItem, search: string, filters: map<Field, string>)
  {
    && (search == "" || Contains(Lower(item.name), Lower(search)) || Contains(Lower(item.kind), Lower(search)))
    && (forall f :: f in filters && filters[f] != "" ==> FilterHolds(item, f, filters[f]))
  }

  /** `filteredData`: the kept rows in their original order. */
  function FilteredData(data: seq<PortfolioItem>, search: string, filters: map<Field, string>): (r: seq<PortfolioItem>)
    ensures IsSubsequence(r, data)
    ensures forall x :: x in r <==> x in data && Keep(x, search, filters)
    ensures forall x :: multiset(r)[x] == (if Keep(x, search, filters) then multiset(data)[x] else 0)
  {
    Filter(data, x => Keep(x, search, filters))
  }

  /** `handleFilterChange`: `"all"` clears the filter, any other value sets it, and the grid
      goes back to the first page. */
  function HandleFilterChange(s: GridState, f: Field, value: string): (r: GridState)
    ensures r.currentPage == 1
    ensures value == "all" ==> f !in r.filters
    ensures value != "all" ==> f in r.filters && r.filters[f] == value
    ensures forall g :: g != f ==> (g in r.filters <==> g in s.filters) && (g in s.filters ==> r.filters[g] == s.filters[g])
    ensures r.(currentPage := s.currentPage, filters := s.filters) == s
  {
    s.(filters := if value == "all" then s.filters - {f} else s.filters[f := value], currentPage := 1)
  }

  /** Choosing a new page size also goes back to the first page. */
  function HandlePageSizeChange(s: GridState, size: int): (r: GridState)
    ensures r.pageSize == size && r.currentPage == 1
    ensures r.(pageSize := s.pageSize, currentPage := s.currentPage) == s
  {
    s.(pageSize := size, currentPage := 1)
  }

  /** The clear-filters button: no filters and an empty search box; the page stays. */
  function ClearFilters(s: GridState): (r: GridState)
    ensures forall item :: Keep(item, r.search, r.filters)
    ensures r.(search := s.search, filters := s.filters) == s
  {
    s.(filters := map[], search := "")
  }

  /** Once cleared, the grid shows every row again. */
  lemma ClearShowsAll(data: seq<PortfolioItem>, s: GridState)
    ensures var c := ClearFilters(s); FilteredData(data, c.search, c.filters) == data
  {
    var c := ClearFilters(s);
    FilterAll(data, x => Keep(x, c.search, c.filters));
  }

  // ---------------------------------------------------------------------------------------
  // Sorting
  // ---------------------------------------------------------------------------------------

  /** `handleSort`: the current column flips direction, a new column starts ascending. */
  function HandleSort(s: GridState, f: Field): (r: GridState)
    ensures r.sortField == f
    ensures s.sortField == f ==> r.sortDirection != s.sortDirection
    ensures s.sortField != f ==> r.sortDirection == Asc
    ensures r.(sortField := s.sortField, sortDirection := s.sortDirection) == s
  {
    if s.sortField == f then s.(sortDirection := if s.sortDirection == Asc then Desc else Asc)
    else s.(sortField := f, sortDirection := Asc)
  }

  /** Ascending "not after" on a column: `localeCompare` for strings, subtraction for numbers. */
  predicate AscLe(f: Field, a: PortfolioItem, b: PortfolioItem)
  {
    if IsText(f) then LexLe(TextOf(a, f), TextOf(b, f)) else NumberOf(a, f) <= NumberOf(b, f)
  }

  /** The comparator of `sortedData`, as a "not after" relation. */
  function Comparator(f: Field, d: SortDirection): (le: (PortfolioItem, PortfolioItem) -> bool)
    ensures TotalPreorder(le)
    ensures forall a, b :: le(a, b) == if d == Asc then AscLe(f, a, b) else AscLe(f, b, a)
  {
    LexLeIsTotalPreorder();
    if d == Asc then (a: PortfolioItem, b: PortfolioItem) => AscLe(f, a, b)
    else (a: PortfolioItem, b: PortfolioItem) => AscLe(f, b, a)
  }

  /** `sortedData`: the filtered rows, reordered by the selected column and direction. */
  function SortedData(data: seq<PortfolioItem>, s: GridState): (r: seq<PortfolioItem>)
    ensures multiset(r) == multiset(FilteredData(data, s.search, s.filters))
    ensures forall x :: x in r <==> x in data && Keep(x, s.search, s.filters)
    ensures forall i, j :: 0 <= i < j < |r| ==>
      if s.sortDirection == Asc then AscLe(s.sortField, r[i], r[j]) else AscLe(s.sortField, r[j], r[i])
  {
    var le := Comparator(s.sortField, s.sortDirection);
    var kept := FilteredData(data, s.search, s.filters);
    var r := SortBy(kept, le);
    SameMembers(r, kept);
    assert forall i, j :: 0 <= i < j < |r| ==> le(r[i], r[j]);
    r
  }

  // ---------------------------------------------------------------------------------------
  // Pagination
  // ---------------------------------------------------------------------------------------

  /** `paginatedData`: `slice((page - 1) * size, page * size)`. */
  function Page<T>(rows: seq<T>, page: int, size: int): seq<T>
  {
    JsSlice(rows, (page - 1) * size, page * size)
  }

  /** `Math.ceil(n / size)`. */
  function TotalPages(n: nat, size: int): (r: nat)
    requires size > 0
    ensures (r - 1) * size < n <= r * size
  {
    (n + size - 1) / size
  }

  /** A page in range is the window `[(page - 1) * size, page * size)` of the rows, cut at
      the end, so it never holds more than `size` rows; a page past the last is empty. */
  lemma PageWindow<T>(rows: seq<T>, page: int, size: int)
    requires size > 0 && page >= 1
    ensures var lo := (page - 1) * size;
            var hi := if page * size < |rows| then page * size else |rows|;
            if lo < |rows| then Page(rows, page, size) == rows[lo..hi] else Page(rows, page, size) == []
    ensures |Page(rows, page, size)| <= size
    ensures page <= TotalPages(|rows|, size) <==> Page(rows, page, size) != []
  {
    var lo := (page - 1) * size;
    var hi := page * size;
    PageBounds(page, size);
    var n := |rows|;
    var tp := TotalPages(n, size);
    if page <= tp {
      MulMonotone(page - 1, tp - 1, size);
      assert lo < n;
    } else {
      MulMonotone(tp, page - 1, size);
      assert n <= lo;
    }
  }

  /** The window of page `page` starts at a non-negative index and spans `size` indexes. */
  lemma PageBounds(page: int, size: int)
    requires size > 0 && page >= 1
    ensures 0 <= (page - 1) * size
    ensures page * size == (page - 1) * size + size
  {
    MulMonotone(0, page - 1, size);
  }

  /** Multiplying by a non-negative size keeps the order. */
  lemma MulMonotone(a: int, b: int, size: int)
    requires a <= b && size >= 0
    ensures a * size <= b * size
  {
    assert b * size - a * size == (b - a) * size;
  }

  /** Pages `1..k` laid end to end. */
  function PagesUpTo<T>(rows: seq<T>, size: int, k: nat): seq<T>
  {
    if k == 0 then [] else PagesUpTo(rows, size, k - 1) + Page(rows, k, size)
  }

  /** The first `k` pages are the first `min(k * size, n)` rows. */
  lemma {:induction false} PagesUpToPrefix<T>(rows: seq<T>, size: int, k: nat)
    requires size > 0
    ensures PagesUpTo(rows, size, k) == rows[..if k * size < |rows| then k * size else |rows|]
  {
    if k > 0 {
      PagesUpToPrefix(rows, size, k - 1);
      PageWindow(rows, k, size);
      PageBounds(k, size);
      var lo := (k - 1) * size;
      if lo < |rows| {
        var hi := if k * size < |rows| then k * size else |rows|;
        assert rows[..lo] + rows[lo..hi] == rows[..hi];
      }
    }
  }

  /** Reading pages `1..totalPages` in turn shows every sorted row exactly once, in order. */
  lemma AllPagesCoverRows<T>(rows: seq<T>, size: int)
    requires size > 0
    ensures PagesUpTo(rows, size, TotalPages(|rows|, size)) == rows
  {
    PagesUpToPrefix(rows, size, TotalPages(|rows|, size));
  }

  /** The Previous button: one page back, never below page 1. */
  function PreviousPage(page: int): (r: int)
    ensures r >= 1
    ensures page > 1 ==> r == page - 1
    ensures page <= 1 ==> r == 1
  {
    if page - 1 > 1 then page - 1 else 1
  }

  /** The Next button: one page on, never past the last page. */
  function NextPage(page: int, totalPages: int): (r: int)
    ensures r <= totalPages
    ensures page < totalPages ==> r == page + 1
    ensures page >= totalPages ==> r == totalPages
  {
    if page + 1 < totalPages then page + 1 else totalPages
  }

  /** An entry of the page-link strip: a page link, flagged when it is the current page, or
      an ellipsis. */
  datatype PageItem = Link(page: int, active: bool) | Ellipsis

  /** The loop of `getPaginationItems` over pages `lo..hi`, skipping the first and last page. */
  function MiddleLinks(lo: int, hi: int, current: int, totalPages: int): (r: seq<PageItem>)
    requires 1 < lo
    requires hi < totalPages
    ensures |r| == if lo <= hi then hi - lo + 1 else 0
    ensures forall i :: 0 <= i < |r| ==> r[i] == Link(lo + i, current == lo + i)
    decreases hi - lo + 1
  {
    if lo > hi then []
    else
      var head := if lo == 1 || lo == totalPages then [] else [Link(lo, current == lo)];
      head + MiddleLinks(lo + 1, hi, current, totalPages)
  }

  /** The first page of the middle run, `Math.max(2, current - 1)`. */
  function MiddleLo(current: int): int
  {
    if 2 < current - 1 then current - 1 else 2
  }

  /** The last page of the middle run, `Math.min(totalPages - 1, current + 1)`. */
  function MiddleHi(current: int, totalPages: int): int
  {
    if totalPages - 1 < current + 1 then totalPages - 1 else current + 1
  }

  /** The leading ellipsis, shown when the current page is past 3. */
  function LeadingGap(current: int): seq<PageItem>
  {
    if current > 3 then [Ellipsis] else []
  }

  /** The trailing ellipsis, shown when the current page is more than two before the last. */
  function TrailingGap(current: int, totalPages: int): seq<PageItem>
  {
    if current < totalPages - 2 then [Ellipsis] else []
  }

  /** The link to the last page, shown when there is more than one page. */
  function LastLink(current: int, totalPages: int): seq<PageItem>
  {
    if totalPages > 1 then [Link(totalPages, current == totalPages)] else []
  }

  /** The middle run, `MiddleLinks` over `MiddleLo..MiddleHi`. */
  function Middle(current: int, totalPages: int): (r: seq<PageItem>)
    ensures totalPages <= 2 ==> r == []
    ensures |r| == if MiddleLo(current) <= MiddleHi(current, totalPages) then MiddleHi(current, totalPages) - MiddleLo(current) + 1 else 0
    ensures forall i :: 0 <= i < |r| ==> r[i] == Link(MiddleLo(current) + i, current == MiddleLo(current) + i)
    ensures forall i :: 0 <= i < |r| ==> 1 < r[i].page < totalPages
  {
    if 1 < totalPages then MiddleLinks(MiddleLo(current), MiddleHi(current, totalPages), current, totalPages) else []
  }

  /** `getPaginationItems`: page 1, an ellipsis when the current page is past 3, the current
      page and its neighbours, an ellipsis when it is more than two before the last, and
      the last page when there is more than one. */
  function PaginationItems(current: int, totalPages: int): (r: seq<PageItem>)
    ensures |r| >= 1 && r[0] == Link(1, current == 1)
    ensures forall i :: 0 <= i < |r| && r[i].Link? ==> 1 <= r[i].page && r[i].active == (r[i].page == current)
    ensures forall i, j :: 0 <= i < j < |r| && r[i].Link? && r[j].Link? ==> r[i].page < r[j].page
    ensures totalPages > 1 ==> r[|r| - 1] == Link(totalPages, current == totalPages)
    ensures totalPages <= 1 ==> forall i :: 0 < i < |r| ==> r[i].Ellipsis?
  {
    var mid := Middle(current, totalPages);
    var r := [Link(1, current == 1)] + LeadingGap(current) + mid + TrailingGap(current, totalPages) + LastLink(current, totalPages);
    StripIndexes(current, totalPages, r);
    StripOrdered(current, totalPages, r);
    r
  }

  /** The number of middle links. */
  function MiddleCount(current: int, totalPages: int): nat
  {
    if 1 < totalPages && MiddleLo(current) <= MiddleHi(current, totalPages)
    then MiddleHi(current, totalPages) - MiddleLo(current) + 1 else 0
  }

  /** Where each part of the strip sits, stated by index: page 1, the optional leading
      ellipsis, the middle links, the optional trailing ellipsis and the optional last page. */
  predicate StripLayout(current: int, totalPages: int, r: seq<PageItem>)
  {
    var e := |LeadingGap(current)|;
    var m := MiddleCount(current, totalPages);
    var t := |TrailingGap(current, totalPages)|;
    && |r| == 1 + e + m + t + |LastLink(current, totalPages)|
    && r[0] == Link(1, current == 1)
    && (e == 1 ==> r[1] == Ellipsis)
    && (forall k :: 1 + e <= k < 1 + e + m ==>
          r[k] == Link(MiddleLo(current) + (k - 1 - e), current == MiddleLo(current) + (k - 1 - e)))
    && (t == 1 ==> r[1 + e + m] == Ellipsis)
    && (totalPages > 1 ==> r[|r| - 1] == Link(totalPages, current == totalPages))
  }

  /** The concatenation in `PaginationItems` has the layout above. */
  lemma StripIndexes(current: int, totalPages: int, r: seq<PageItem>)
    requires r == [Link(1, current == 1)] + LeadingGap(current) + Middle(current, totalPages)
                  + TrailingGap(current, totalPages) + LastLink(current, totalPages)
    ensures StripLayout(current, totalPages, r)
  {
    var e := |LeadingGap(current)|;
    var mid := Middle(current, totalPages);
    assert |mid| == MiddleCount(current, totalPages);
    forall k | 1 + e <= k < 1 + e + |mid|
      ensures r[k] == Link(MiddleLo(current) + (k - 1 - e), current == MiddleLo(current) + (k - 1 - e))
    {
      assert r[k] == mid[k - 1 - e];
    }
  }

  /** Link pages strictly increase along the strip. */
  lemma StripOrdered(current: int, totalPages: int, r: seq<PageItem>)
    requires StripLayout(current, totalPages, r)
    ensures forall i :: 0 <= i < |r| && r[i].Link? ==> 1 <= r[i].page && r[i].active == (r[i].page == current)
    ensures forall i, j :: 0 <= i < j < |r| && r[i].Link? && r[j].Link? ==> r[i].page < r[j].page
    ensures totalPages <= 1 ==> forall i :: 0 < i < |r| ==> r[i].Ellipsis?
  {
    var e := |LeadingGap(current)|;
    var m := MiddleCount(current, totalPages);
    assert m > 0 ==> MiddleLo(current) + m - 1 <= totalPages - 1;
  }

  /** When the current page is a real page, the strip lists it, marked active. */
  lemma PaginationShowsCurrent(current: int, totalPages: int)
    requires 1 <= current <= totalPages
    ensures Link(current, true) in PaginationItems(current, totalPages)
  {
    var r := PaginationItems(current, totalPages);
    StripIndexes(current, totalPages, r);
    if current != 1 && current != totalPages {
      var e := |LeadingGap(current)|;
      assert r[1 + e + (current - MiddleLo(current))] == Link(current, true);
    }
  }

  /** An ellipsis stands exactly where pages are skipped: neighbouring links are consecutive
      pages, an ellipsis sits between two links at least two pages apart, the leading
      ellipsis appears iff the current page is past 3 and the trailing one iff it is more
      than two before the last. */
  lemma PaginationGaps(current: int, totalPages: int)
    requires 1 <= current <= totalPages
    ensures var r := PaginationItems(current, totalPages);
      && (forall k :: 0 <= k < |r| - 1 && r[k].Link? && r[k + 1].Link? ==> r[k + 1].page == r[k].page + 1)
      && (forall k :: 0 <= k < |r| && r[k].Ellipsis? ==>
            0 < k < |r| - 1 && r[k - 1].Link? && r[k + 1].Link? && r[k + 1].page >= r[k - 1].page + 2)
      && (|r| > 1 && r[1].Ellipsis? <==> current > 3)
      && (|r| > 1 && r[|r| - 2].Ellipsis? <==> current < totalPages - 2)
  {
    var r := PaginationItems(current, totalPages);
    StripIndexes(current, totalPages, r);
    LayoutLinksConsecutive(current, totalPages, r);
    LayoutEllipsesFlanked(current, totalPages, r);
    LayoutGapEnds(current, totalPages, r);
  }

  /** Facts about the regions' sizes that all layout lemmas share. */
  lemma LayoutSizes(current: int, totalPages: int)
    requires 1 <= current <= totalPages
    ensures var e := |LeadingGap(current)|;
      var m := MiddleCount(current, totalPages);
      var t := |TrailingGap(current, totalPages)|;
      var lo := MiddleLo(current);
      && (totalPages >= 3 ==> m >= 1)
      && (totalPages < 3 ==> m == 0 && e == 0 && t == 0)
      && (e == 0 ==> lo == 2)
      && (e == 1 ==> lo >= 3)
      && (m >= 1 && t == 0 ==> lo + m - 1 == totalPages - 1)
      && (m >= 1 && t == 1 ==> lo + m - 1 <= totalPages - 2)
  {
  }

  /** Neighbouring links in the strip are consecutive pages. */
  lemma LayoutLinksConsecutive(current: int, totalPages: int, r: seq<PageItem>)
    requires 1 <= current <= totalPages
    requires StripLayout(current, totalPages, r)
    ensures forall k :: 0 <= k < |r| - 1 && r[k].Link? && r[k + 1].Link? ==> r[k + 1].page == r[k].page + 1
  {
    LayoutSizes(current, totalPages);
  }

  /** Every ellipsis sits between two links at least two pages apart. */
  lemma LayoutEllipsesFlanked(current: int, totalPages: int, r: seq<PageItem>)
    requires 1 <= current <= totalPages
    requires StripLayout(current, totalPages, r)
    ensures forall k :: 0 <= k < |r| && r[k].Ellipsis? ==>
              0 < k < |r| - 1 && r[k - 1].Link? && r[k + 1].Link? && r[k + 1].page >= r[k - 1].page + 2
  {
    LayoutSizes(current, totalPages);
    var e := |LeadingGap(current)|;
    var m := MiddleCount(current, totalPages);
    var lo := MiddleLo(current);
    if m >= 1 {
      assert r[1 + e] == Link(lo, current == lo);
      assert r[e + m] == Link(lo + m - 1, current == lo + m - 1);
    }
  }

  /** The leading ellipsis appears iff the current page is past 3, the trailing one iff it
      is more than two before the last. */
  lemma LayoutGapEnds(current: int, totalPages: int, r: seq<PageItem>)
    requires 1 <= current <= totalPages
    requires StripLayout(current, totalPages, r)
    ensures |r| > 1 && r[1].Ellipsis? <==> current > 3
    ensures |r| > 1 && r[|r| - 2].Ellipsis? <==> current < totalPages - 2
  {
    LayoutSizes(current, totalPages);
    var e := |LeadingGap(current)|;
    var m := MiddleCount(current, totalPages);
    var lo := MiddleLo(current);
    if m >= 1 {
      assert r[1 + e] == Link(lo, current == lo);
      assert r[e + m] == Link(lo + m - 1, current == lo + m - 1);
    }
  }

  // ---------------------------------------------------------------------------------------
  // Deletion
  // ---------------------------------------------------------------------------------------

  /** `confirmDelete`: with an item chosen, every row with its id goes and the rest keep
      their order; with none chosen the data is unchanged. */
  function ConfirmDelete(data: seq<PortfolioItem>, itemToDelete: Option<string>): (r: seq<PortfolioItem>)
    ensures itemToDelete.None? || itemToDelete.value == "" ==> r == data
    ensures itemToDelete.Some? && itemToDelete.value != "" ==>
      forall x :: x in r <==> x in data && x.id != itemToDelete.value
    ensures itemToDelete.Some? && itemToDelete.value != "" ==>
      forall x :: multiset(r)[x] == if x.id == itemToDelete.value then 0 else multiset(data)[x]
    ensures IsSubsequence(r, data)
  {
    SubsequenceRefl(data);
    if itemToDelete.Some? && itemToDelete.value != "" then Filter(data, (x: PortfolioItem) => x.id != itemToDelete.value)
    else data
  }
}
