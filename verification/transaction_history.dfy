/** The transaction history table (components/transaction-history.tsx): the filter
    criteria, the sort header, the search box, the row limit, local deletion and the
    per-row labels. */
module TransactionHistory {
  import opened Wrappers
  import opened Types
  import opened Seqs
  import opened Text
  import TransactionsRoute

  // ---------------------------------------------------------------------------------------
  // Filters
  // ---------------------------------------------------------------------------------------

  /** The keys of `TransactionFilters`. */
  datatype FilterKey = TypeKey | AssetKey | DateFromKey | DateToKey | StatusKey

  /** The filter state; a key that is absent is `undefined`. */
  type Filters = map<FilterKey, string>

  /** `handleFilterChange`: choosing `"all"` clears the key, any other value sets it. */
  function HandleFilterChange(f: Filters, key: FilterKey, value: string): (r: Filters)
    ensures value == "all" ==> key !in r
    ensures value != "all" ==> key in r && r[key] == value
    ensures forall k :: k != key ==> (k in r <==> k in f) && (k in f ==> r[k] == f[k])
  {
    if value == "all" then f - {key} else f[key := value]
  }

  /** A key's value, with the empty string for `undefined`. */
  function Lookup(f: Filters, key: FilterKey): string
  {
    if key in f then f[key] else ""
  }

  /** The filters as ledger criteria. */
  function CriteriaOf(f: Filters): Criteria
  {
    Criteria(Lookup(f, TypeKey), Lookup(f, AssetKey), Lookup(f, DateFromKey), Lookup(f, DateToKey), Lookup(f, StatusKey))
  }

  /** The filtered rows the table loads: exactly the rows passing every set filter, in
      their original order. */
  function FilterRows(rows: seq<Transaction>, f: Filters, parse: string -> int): (r: seq<Transaction>)
    ensures IsSubsequence(r, rows)
    ensures forall t :: t in r <==> t in rows && Admits(CriteriaOf(f), parse, t)
    ensures forall t :: multiset(r)[t] == (if Admits(CriteriaOf(f), parse, t) then multiset(rows)[t] else 0)
  {
    Filter(rows, t => Admits(CriteriaOf(f), parse, t))
  }

  /** Setting a key to `"all"` and then loading gives the same rows as never setting it. */
  lemma AllClearsFilter(rows: seq<Transaction>, f: Filters, key: FilterKey, parse: string -> int)
    requires key !in f
    ensures FilterRows(rows, HandleFilterChange(f, key, "all"), parse) == FilterRows(rows, f, parse)
  {
    assert HandleFilterChange(f, key, "all") == f;
  }

  // ---------------------------------------------------------------------------------------
  // Sorting
  // ---------------------------------------------------------------------------------------

  /** The columns the table can sort on. */
  datatype SortField = DateField | TypeField | AssetField | IdField | StatusField | AmountField | PriceField | ValueField

  datatype SortDirection = Asc | Desc

  datatype SortState = SortState(field: SortField, direction: SortDirection)

  /** `handleSort`: the current column flips direction, a new column starts descending. */
  function HandleSort(s: SortState, field: SortField): (r: SortState)
    ensures r.field == field
    ensures s.field == field ==> r.direction != s.direction
    ensures s.field != field ==> r.direction == Desc
  {
    if s.field == field then s.(direction := if s.direction == Asc then Desc else Asc)
    else SortState(field, Desc)
  }

  /** Clicking the same header twice restores the sort. */
  lemma HandleSortTwice(s: SortState)
    ensures HandleSort(HandleSort(s, s.field), s.field) == s
  {
  }

  /** The text a string column sorts on. */
  function TextKey(t: Transaction, field: SortField): string
  {
    match field
    case TypeField => TypeName(t.kind)
    case AssetField => t.asset
    case IdField => t.id
    case StatusField => StatusName(t.status)
    case _ => ""
  }

  /** The number a numeric column sorts on. */
  function NumberKey(t: Transaction, field: SortField): real
  {
    match field
    case AmountField => t.amount
    case PriceField => t.price
    case ValueField => t.value
    case _ => 0.0
  }

  /** Ascending "not after" on one column: timestamps for the date, `localeCompare` for the
      string columns, subtraction for the numeric ones. */
  predicate AscLe(field: SortField, a: Transaction, b: Transaction)
  {
    if field == DateField then a.date <= b.date
    else if field.TypeField? || field.AssetField? || field.IdField? || field.StatusField? then LexLe(TextKey(a, field), TextKey(b, field))
    else NumberKey(a, field) <= NumberKey(b, field)
  }

  /** The comparator of `sortedTransactions`, as a "not after" relation. */
  function Comparator(s: SortState): (le: (Transaction, Transaction) -> bool)
    ensures TotalPreorder(le)
    ensures forall a, b :: le(a, b) == if s.direction == Asc then AscLe(s.field, a, b) else AscLe(s.field, b, a)
  {
    LexLeIsTotalPreorder();
    if s.direction == Asc then (a: Transaction, b: Transaction) => AscLe(s.field, a, b)
    else (a: Transaction, b: Transaction) => AscLe(s.field, b, a)
  }

  /** `sortedTransactions`: the same rows, ordered by the selected column and direction. */
  function SortRows(rows: seq<Transaction>, s: SortState): (r: seq<Transaction>)
    ensures multiset(r) == multiset(rows)
    ensures forall i, j :: 0 <= i < j < |r| ==>
      if s.direction == Asc then AscLe(s.field, r[i], r[j]) else AscLe(s.field, r[j], r[i])
  {
    var le := Comparator(s);
    var r := SortBy(rows, le);
    assert forall i, j :: 0 <= i < j < |r| ==> le(r[i], r[j]);
    r
  }

  // ---------------------------------------------------------------------------------------
  // Search, limit, delete
  // ---------------------------------------------------------------------------------------

  /** A row matches the lower-cased search term in its asset, id, type or status. */
  predicate SearchHit(t: Transaction, term: string)
  {
    var q := Lower(term);
    Contains(Lower(t.asset), q) || Contains(Lower(t.id), q) ||
    Contains(Lower(TypeName(t.kind)), q) || Contains(Lower(StatusName(t.status)), q)
  }

  /** `filteredTransactions`: an empty term keeps every row; otherwise exactly the rows the
      term hits, in order. */
  function Search(rows: seq<Transaction>, term: string): (r: seq<Transaction>)
    ensures term == "" ==> r == rows
    ensures IsSubsequence(r, rows)
    ensures forall t :: t in r <==> t in rows && (term == "" || SearchHit(t, term))
    ensures forall t :: multiset(r)[t] == (if term == "" || SearchHit(t, term) then multiset(rows)[t] else 0)
  {
    SubsequenceRefl(rows);
    if term == "" then rows else Filter(rows, t => SearchHit(t, term))
  }

  /** An empty term hits every row, so the early return agrees with the filter. */
  lemma EmptySearchHitsAll(t: Transaction)
    ensures SearchHit(t, "")
  {
    ContainsEmpty(Lower(t.asset));
  }

  /** `displayedTransactions`: a `limit` of 0 (or none) shows every row, a positive limit the
      first `min(limit, n)`, and a negative one, through `slice`, drops rows from the end. */
  function ApplyLimit(rows: seq<Transaction>, limit: int): (r: seq<Transaction>)
    ensures limit == 0 ==> r == rows
    ensures limit > 0 ==> r == rows[..if limit < |rows| then limit else |rows|]
    ensures limit < 0 ==> r == rows[..if |rows| + limit < 0 then 0 else |rows| + limit]
  {
    if limit != 0 then JsSlice(rows, 0, limit) else rows
  }

  /** The rows on screen: load with the filters, sort, search, then cut to the limit. */
  function Displayed(rows: seq<Transaction>, f: Filters, parse: string -> int, s: SortState,
                     term: string, limit: int): (r: seq<Transaction>)
    ensures limit >= 0 ==> |r| <= limit || limit == 0
    ensures forall t :: t in r ==> t in rows && Admits(CriteriaOf(f), parse, t) && (term == "" || SearchHit(t, term))
  {
    var sorted := SortRows(FilterRows(rows, f, parse), s);
    var searched := Search(sorted, term);
    var shown := ApplyLimit(searched, limit);
    assert forall t :: t in shown ==> t in searched;
    assert forall t :: t in sorted ==> t in multiset(sorted);
    shown
  }

  /** `handleDeleteTransaction`: drops every row with that id and keeps the rest in order. */
  function DeleteRow(rows: seq<Transaction>, id: string): (r: seq<Transaction>)
    ensures forall t :: t in r <==> t in rows && t.id != id
    ensures forall t :: multiset(r)[t] == (if t.id == id then 0 else multiset(rows)[t])
    ensures IsSubsequence(r, rows)
    ensures |r| < |rows| <==> exists t <- rows :: t.id == id
  {
    var keep := (t: Transaction) => t.id != id;
    var r := Filter(rows, keep);
    assert (exists t <- rows :: t.id == id) ==> |r| < |rows| by {
      if exists t <- rows :: t.id == id {
        var t :| t in rows && t.id == id;
        assert multiset(r)[t] == 0 < multiset(rows)[t];
        assert multiset(r) != multiset(rows);
        SubMultisetSmaller(r, rows, keep);
      }
    }
    assert !(exists t <- rows :: t.id == id) ==> r == rows by {
      if !(exists t <- rows :: t.id == id) {
        FilterAll(rows, keep);
      }
    }
    r
  }

  /** A filter that drops an element is strictly shorter. */
  lemma {:induction false} SubMultisetSmaller(r: seq<Transaction>, rows: seq<Transaction>, p: Transaction -> bool)
    requires r == Filter(rows, p)
    requires exists t <- rows :: !p(t)
    ensures |r| < |rows|
    decreases |rows|
  {
    if !p(rows[0]) {
      assert |Filter(rows[1..], p)| <= |rows[1..]|;
    } else {
      var t :| t in rows && !p(t);
      assert t in rows[1..];
      SubMultisetSmaller(Filter(rows[1..], p), rows[1..], p);
    }
  }

  // ---------------------------------------------------------------------------------------
  // Row labels
  // ---------------------------------------------------------------------------------------

  /** `getTransactionTypeText`: the translation key of a row's type label. */
  function TypeText(t: Transaction): (r: string)
    ensures t.kind == Transfer ==> (r == "moneySent" <==> t.direction == Some(Send))
    ensures t.kind == Transfer ==> (r == "moneyReceived" <==> t.direction != Some(Send))
    ensures t.kind != Transfer ==> r == TypeName(t.kind)
  {
    if t.kind == Transfer then (if t.direction == Some(Send) then "moneySent" else "moneyReceived")
    else TypeName(t.kind)
  }

  /** The sign in front of a row's value. */
  function ValueSign(t: Transaction): (r: char)
    ensures r == '+' <==> t.kind == Sell || (t.kind == Transfer && t.direction == Some(Receive))
    ensures r == '+' || r == '-'
  {
    if (t.kind == Transfer && t.direction == Some(Receive)) || t.kind == Sell then '+' else '-'
  }

  /** For a row the route has just accepted, the sign shows which way cash moved. */
  lemma SignFollowsCash(req: TransactionRequest, budget: Budget, ledger: Ledger, freshId: string, now: int)
    requires forall t <- ledger :: t.id != freshId
    requires TransactionsRoute.Process(req, budget, ledger, freshId, now).Success?
    ensures var a := TransactionsRoute.Process(req, budget, ledger, freshId, now).value;
            (ValueSign(a.tx) == '+' <==> a.budget.cash > budget.cash) &&
            (ValueSign(a.tx) == '-' <==> a.budget.cash < budget.cash)
  {
    var a := TransactionsRoute.Process(req, budget, ledger, freshId, now).value;
    assert a.tx.value > 0.0;
    if a.tx.kind == Transfer && req.direction.Some? {
      assert req.direction.value == Send || req.direction.value == Receive;
    }
  }
}
