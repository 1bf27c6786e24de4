/** The records of the ledger and of the user account (types/transaction.ts, types/user.ts). */
module Types {
  import opened Wrappers

  datatype TxType = Buy | Sell | Transfer

  datatype TxStatus = Completed | Pending | Failed

  /** Which way a transfer moves cash. */
  datatype Direction = Send | Receive

  /** One ledger row. `date` is the timestamp `new Date(date)` denotes, in milliseconds.
      The optional `notes` and `fee` fields are never written by the core and are omitted. */
  datatype Transaction = Transaction(
    id: string,
    kind: TxType,
    asset: string,
    amount: real,
    price: real,
    value: real,
    date: int,
    status: TxStatus,
    userId: string,
    direction: Option<Direction>)

  /** The ledger, newest entry first. */
  type Ledger = seq<Transaction>

  /** The account snapshot the transaction route maintains. */
  datatype Budget = Budget(totalBalance: real, investments: real, cash: real, activePositions: int)

  datatype User = User(id: string, name: string, email: string, imageUrl: string, budget: Budget)

  /** The submitted body of a transaction request. `kind == None` is a request whose `type`
      is missing; the remaining fields are always present. */
  datatype TransactionRequest = TransactionRequest(
    kind: Option<TxType>,
    asset: string,
    amount: real,
    price: real,
    direction: Option<Direction>)

  /** The string the source stores in `Transaction.type`. */
  function TypeName(k: TxType): (r: string)
    ensures r != ""
  {
    match k
    case Buy => "buy"
    case Sell => "sell"
    case Transfer => "transfer"
  }

  /** The string the source stores in `Transaction.status`. */
  function StatusName(s: TxStatus): (r: string)
    ensures r != "" && r != "all"
  {
    match s
    case Completed => "completed"
    case Pending => "pending"
    case Failed => "failed"
  }

  /** Distinct transaction types have distinct names. */
  lemma TypeNameInjective(a: TxType, b: TxType)
    ensures TypeName(a) == TypeName(b) <==> a == b
  {
  }

  /** Distinct statuses have distinct names. */
  lemma StatusNameInjective(a: TxStatus, b: TxStatus)
    ensures StatusName(a) == StatusName(b) <==> a == b
  {
  }

  /** The ledger's ids are pairwise distinct. */
  predicate UniqueIds(ledger: Ledger)
  {
    forall i, j :: 0 <= i < j < |ledger| ==> ledger[i].id != ledger[j].id
  }

  /** A ledger filter with the five criteria of `TransactionFilters` (types/transaction.ts).
      Every criterion is a string, and the empty string means "not set", which is how
      JavaScript's truthiness test treats both `undefined` and `""`. Date criteria are
      read through `parse`, which stands for `new Date(...)`. */
  datatype Criteria = Criteria(kind: string, asset: string, dateFrom: string, dateTo: string, status: string)

  /** A transaction passes every criterion that is set. */
  predicate Admits(c: Criteria, parse: string -> int, t: Transaction)
  {
    && (c.kind == "" || TypeName(t.kind) == c.kind)
    && (c.asset == "" || t.asset == c.asset)
    && (c.dateFrom == "" || t.date >= parse(c.dateFrom))
    && (c.dateTo == "" || t.date <= parse(c.dateTo))
    && (c.status == "" || StatusName(t.status) == c.status)
  }
}
