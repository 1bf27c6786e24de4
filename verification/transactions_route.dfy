/** The transaction route (app/api/transactions/route.ts): the ledger query of `GET` and the
    reconciliation of `POST`, which validates a request, applies the affordability gate,
    updates the budget and prepends the new row to the ledger.

    The module-level `transactions` array and `currentUser.budget` become explicit
    arguments and results; `uuidv4()` and `new Date()` become the `freshId` and `now`
    parameters. */
module TransactionsRoute {
  import opened Wrappers
  import opened Types
  import opened Seqs

  /** The only user the route knows. */
  const CurrentUserId: string := "user1"

  /** Why `POST` refused a request (HTTP 400 in the source). */
  datatype Rejection = InvalidFields | InsufficientFunds

  /** What an accepted `POST` produces: the new row, the updated budget, the updated ledger. */
  datatype Accepted = Accepted(tx: Transaction, budget: Budget, ledger: Ledger)

  // ---------------------------------------------------------------------------------------
  // GET
  // ---------------------------------------------------------------------------------------

  /** The query string of `GET`, read as filter criteria: a missing parameter and the empty
      string both leave a criterion unset, and `"all"` does so for type and status. */
  function QueryCriteria(kind: string, asset: string, dateFrom: string, dateTo: string, status: string): Criteria
  {
    Criteria(if kind == "all" then "" else kind, asset, dateFrom, dateTo, if status == "all" then "" else status)
  }

  /** The comparator of the `GET` sort, `b.date - a.date`: newest first. */
  function NewestFirst(): (le: (Transaction, Transaction) -> bool)
    ensures TotalPreorder(le)
  {
    (a: Transaction, b: Transaction) => a.date >= b.date
  }

  /** `GET`: the ledger rows matching every supplied filter, newest first. */
  function Query(ledger: Ledger, kind: string, asset: string, dateFrom: string, dateTo: string,
                 status: string, parse: string -> int): (r: seq<Transaction>)
    ensures forall t ::
      multiset(r)[t] == (
        if && (kind == "" || kind == "all" || TypeName(t.kind) == kind)
           && (asset == "" || t.asset == asset)
           && (dateFrom == "" || parse(dateFrom) <= t.date)
           && (dateTo == "" || t.date <= parse(dateTo))
           && (status == "" || status == "all" || StatusName(t.status) == status)
        then multiset(ledger)[t] else 0)
    ensures forall i, j :: 0 <= i < j < |r| ==> r[i].date >= r[j].date
  {
    var c := QueryCriteria(kind, asset, dateFrom, dateTo, status);
    SortBy(Filter(ledger, t => Admits(c, parse, t)), NewestFirst())
  }

  // ---------------------------------------------------------------------------------------
  // POST
  // ---------------------------------------------------------------------------------------

  /** A transfer without a direction is treated as a send; the direction is defaulted before
      validation and is carried over unchanged for every other request. */
  function EffectiveDirection(req: TransactionRequest): (r: Option<Direction>)
    ensures req.kind == Some(Transfer) ==> r.Some?
    ensures req.direction.Some? ==> r == req.direction
    ensures req.kind != Some(Transfer) ==> r == req.direction
  {
    if req.kind == Some(Transfer) && req.direction.None? then Some(Send) else req.direction
  }

  /** The required-field check: a type, a non-empty asset, an amount that is neither zero
      nor negative, and a positive price. */
  predicate Valid(req: TransactionRequest)
  {
    req.kind.Some? && req.asset != "" && req.amount != 0.0 && req.amount > 0.0 && req.price > 0.0
  }

  /** The requests that take money out of cash and so pass through the affordability gate. */
  predicate IsOutflow(req: TransactionRequest)
  {
    (req.kind == Some(Transfer) && EffectiveDirection(req) == Some(Send)) || req.kind == Some(Buy)
  }

  /** What the gate compares with cash: the quantity itself for a transfer, quantity times
      price for a buy. */
  function RequiredFunds(req: TransactionRequest): real
  {
    req.amount * (if req.kind == Some(Transfer) then 1.0 else req.price)
  }

  /** The affordability gate refuses the request. */
  predicate Unaffordable(req: TransactionRequest, budget: Budget)
  {
    IsOutflow(req) && RequiredFunds(req) > budget.cash
  }

  /** The ledger already holds a completed buy of `asset` by the current user. */
  predicate HasCompletedBuy(ledger: Ledger, asset: string)
  {
    exists t <- ledger :: t.asset == asset && t.userId == CurrentUserId && t.kind == Buy && t.status == Completed
  }

  /** How one row moves the current user's held quantity of `asset`, whatever its status. */
  function QuantityDelta(t: Transaction, asset: string): real
  {
    if t.asset != asset || t.userId != CurrentUserId then 0.0
    else match t.kind
      case Buy => t.amount
      case Sell => -t.amount
      case Transfer => 0.0
  }

  /** Bought minus sold quantity of `asset` over the ledger. */
  function NetQuantity(ledger: Ledger, asset: string): real
  {
    if ledger == [] then 0.0 else QuantityDelta(ledger[0], asset) + NetQuantity(ledger[1..], asset)
  }

  /** The held quantity over a concatenation is the sum over its parts. */
  lemma {:induction false} NetQuantityAppend(a: Ledger, b: Ledger, asset: string)
    ensures NetQuantity(a + b, asset) == NetQuantity(a, asset) + NetQuantity(b, asset)
    decreases |a|
  {
    if a == [] {
      assert a + b == b;
    } else {
      assert (a + b)[1..] == a[1..] + b;
      NetQuantityAppend(a[1..], b, asset);
    }
  }

  /** `Math.max(0, n - 1)`. */
  function DecrementFloored(n: int): (r: int)
    ensures r >= 0
    ensures n >= 1 ==> r == n - 1
    ensures n <= 0 ==> r == 0
  {
    if n - 1 < 0 then 0 else n - 1
  }

  /** The budget once an accepted request is applied, with `value` the computed value. */
  function ApplyToBudget(budget: Budget, req: TransactionRequest, ledger: Ledger, value: real): Budget
    requires req.kind.Some?
  {
    var b :=
      match req.kind.value
      case Buy =>
        budget.(cash := budget.cash - value, investments := budget.investments + value,
                activePositions := if HasCompletedBuy(ledger, req.asset) then budget.activePositions
                                   else budget.activePositions + 1)
      case Sell =>
        budget.(cash := budget.cash + value, investments := budget.investments - value,
                activePositions := if NetQuantity(ledger, req.asset) - req.amount <= 0.0
                                   then DecrementFloored(budget.activePositions)
                                   else budget.activePositions)
      case Transfer =>
        if EffectiveDirection(req) == Some(Send) then budget.(cash := budget.cash - value)
        else budget.(cash := budget.cash + value);
    b.(totalBalance := b.cash + b.investments)
  }

  /** The shared tail of `POST`: validation, gate, row construction, budget update and
      prepend, with `unitPrice` the price the row's value is computed from. */
  function Commit(req: TransactionRequest, budget: Budget, ledger: Ledger, freshId: string, now: int,
                  unitPrice: real): Result<Accepted, Rejection>
  {
    if !Valid(req) then Failure(InvalidFields)
    else if Unaffordable(req, budget) then Failure(InsufficientFunds)
    else
      var value := req.amount * unitPrice;
      var tx := Transaction(freshId, req.kind.value, req.asset, req.amount, unitPrice, value, now,
                            Completed, CurrentUserId, EffectiveDirection(req));
      Success(Accepted(tx, ApplyToBudget(budget, req, ledger, value), [tx] + ledger))
  }

  /** `POST` as written: the row's value is always quantity times the submitted price. */
  function Process(req: TransactionRequest, budget: Budget, ledger: Ledger, freshId: string, now: int)
    : (r: Result<Accepted, Rejection>)
    requires forall t <- ledger :: t.id != freshId
    // rejections, which leave budget and ledger as they were
    ensures r == Failure(InvalidFields) <==>
      req.kind.None? || req.asset == "" || req.amount <= 0.0 || req.price <= 0.0
    ensures r == Failure(InsufficientFunds) <==> (Valid(req) && (
      || (req.kind == Some(Buy) && req.amount * req.price > budget.cash)
      || (req.kind == Some(Transfer) && EffectiveDirection(req) == Some(Send) && req.amount > budget.cash)))
    // the new row, prepended to the unchanged ledger
    ensures r.Success? ==> var a := r.value;
      && a.ledger == [a.tx] + ledger
      && a.tx.id == freshId && a.tx.date == now
      && a.tx.kind == req.kind.value && a.tx.asset == req.asset
      && a.tx.amount == req.amount && a.tx.price == req.price
      && a.tx.value == req.amount * req.price
      && a.tx.status == Completed && a.tx.userId == CurrentUserId
      && a.tx.direction == EffectiveDirection(req)
      && (UniqueIds(ledger) ==> UniqueIds(a.ledger))
    // the budget
    ensures r.Success? ==> var b := r.value.budget; var v := req.amount * req.price;
      && b.totalBalance == b.cash + b.investments
      && (budget.activePositions >= 0 ==> b.activePositions >= 0)
      && (req.kind == Some(Buy) ==>
            && b.cash == budget.cash - v && b.investments == budget.investments + v
            && b.cash + b.investments == budget.cash + budget.investments
            && (b.activePositions == budget.activePositions + 1 <==> !HasCompletedBuy(ledger, req.asset))
            && (HasCompletedBuy(ledger, req.asset) ==> b.activePositions == budget.activePositions))
      && (req.kind == Some(Sell) ==>
            && b.cash == budget.cash + v && b.investments == budget.investments - v
            && b.cash + b.investments == budget.cash + budget.investments
            && b.activePositions ==
                 if NetQuantity(r.value.ledger, req.asset) <= 0.0
                 then (if budget.activePositions >= 1 then budget.activePositions - 1 else 0)
                 else budget.activePositions)
      && (req.kind == Some(Transfer) ==>
            && b.investments == budget.investments
            && b.activePositions == budget.activePositions
            && b.cash == if req.direction == Some(Receive) then budget.cash + v else budget.cash - v)
  {
    var r := Commit(req, budget, ledger, freshId, now, req.price);
    assert r.Success? ==> (NetQuantity(r.value.ledger, req.asset) ==
      QuantityDelta(r.value.tx, req.asset) + NetQuantity(ledger, req.asset));
    assert req.kind == Some(Transfer) ==> (EffectiveDirection(req) == Some(Send) <==> req.direction != Some(Receive)) by {
      if req.direction.Some? {
        assert req.direction.value == Send || req.direction.value == Receive;
      }
    }
    r
  }

  /** `POST` with the evident intent of the gate, which treats a transfer as moving currency
      one to one: a transfer is valued and stored at unit price 1, so the amount the gate
      checks is the amount taken from cash. */
  function ProcessCorrected(req: TransactionRequest, budget: Budget, ledger: Ledger, freshId: string, now: int)
    : (r: Result<Accepted, Rejection>)
    requires forall t <- ledger :: t.id != freshId
    ensures r.Failure? <==> !Valid(req) || Unaffordable(req, budget)
    ensures r.Success? ==> var a := r.value;
      && a.ledger == [a.tx] + ledger
      && a.tx.value == a.tx.amount * a.tx.price
      && (req.kind == Some(Transfer) ==> a.tx.price == 1.0 && a.tx.value == req.amount)
      && (IsOutflow(req) ==> a.tx.value == RequiredFunds(req))
      && a.budget.totalBalance == a.budget.cash + a.budget.investments
      && (budget.cash >= 0.0 ==> a.budget.cash >= 0.0)
  {
    Commit(req, budget, ledger, freshId, now, if req.kind == Some(Transfer) then 1.0 else req.price)
  }

  /** As written, a send transfer is gated on its amount but charged amount times price:
      with 100 in cash, sending 100 at price 2 is accepted and leaves cash at -100. The
      corrected route accepts it too, at value 100, and leaves cash at 0. */
  lemma SendTransferOverdraws()
    ensures var budget := Budget(100.0, 0.0, 100.0, 0);
            var req := TransactionRequest(Some(Transfer), "USD", 100.0, 2.0, Some(Send));
            && Process(req, budget, [], "t", 0).Success?
            && Process(req, budget, [], "t", 0).value.budget.cash == -100.0
            && ProcessCorrected(req, budget, [], "t", 0).Success?
            && ProcessCorrected(req, budget, [], "t", 0).value.budget.cash == 0.0
  {
  }

  /** Buys never overdraw as written: only the transfer path is affected. */
  lemma BuyNeverOverdraws(req: TransactionRequest, budget: Budget, ledger: Ledger, freshId: string, now: int)
    requires forall t <- ledger :: t.id != freshId
    requires req.kind == Some(Buy) && budget.cash >= 0.0
    ensures Process(req, budget, ledger, freshId, now).Success? ==>
              Process(req, budget, ledger, freshId, now).value.budget.cash >= 0.0
  {
  }

  // ---------------------------------------------------------------------------------------
  // The route as a state machine
  // ---------------------------------------------------------------------------------------

  /** The route's module-level state: the user's budget and the ledger. */
  datatype Store = Store(budget: Budget, ledger: Ledger)

  /** The response of `POST`: the created row (HTTP 201) or the reason for refusal (HTTP 400). */
  datatype Response = Created(tx: Transaction) | Rejected(reason: Rejection)

  /** One `POST` against the store: a refused request leaves the store as it was. */
  function Submit(s: Store, req: TransactionRequest, freshId: string, now: int): (r: (Store, Response))
    requires forall t <- s.ledger :: t.id != freshId
    ensures r.1.Rejected? ==> r.0 == s
    ensures r.1.Created? ==> r.0.ledger == [r.1.tx] + s.ledger && r.1.tx.id == freshId
    ensures r.1.Created? ==> r.0.budget.totalBalance == r.0.budget.cash + r.0.budget.investments
  {
    match Process(req, s.budget, s.ledger, freshId, now)
    case Success(a) => (Store(a.budget, a.ledger), Created(a.tx))
    case Failure(e) => (s, Rejected(e))
  }

  /** The budget satisfies the balance equation. */
  predicate Balanced(b: Budget)
  {
    b.totalBalance == b.cash + b.investments
  }

  /** `ids` are pairwise distinct and none is already used in `ledger`. */
  predicate FreshIds(ledger: Ledger, ids: seq<string>)
  {
    && (forall i, j :: 0 <= i < j < |ids| ==> ids[i] != ids[j])
    && (forall i, t :: 0 <= i < |ids| && t in ledger ==> t.id != ids[i])
  }

  /** A run of `POST` requests, the k-th with id `ids[k]` and timestamp `times[k]`.
      Every state reachable this way keeps the ledger's ids distinct and never lets the
      active-position count go negative; once a request is accepted the balance equation
      holds, and a balanced budget stays balanced. Existing rows are never altered. */
  function Replay(s: Store, reqs: seq<TransactionRequest>, ids: seq<string>, times: seq<int>)
    : (r: (Store, nat))
    requires |ids| == |reqs| == |times|
    requires FreshIds(s.ledger, ids)
    ensures |r.0.ledger| == |s.ledger| + r.1 && r.1 <= |reqs|
    ensures r.0.ledger[r.1..] == s.ledger
    ensures r.1 == 0 ==> r.0 == s
    ensures r.1 > 0 || Balanced(s.budget) ==> Balanced(r.0.budget)
    ensures s.budget.activePositions >= 0 ==> r.0.budget.activePositions >= 0
    ensures UniqueIds(s.ledger) ==> UniqueIds(r.0.ledger)
    decreases |reqs|
  {
    if reqs == [] then (s, 0)
    else
      var (s1, resp) := Submit(s, reqs[0], ids[0], times[0]);
      assert s1.ledger == s.ledger || s1.ledger == [resp.tx] + s.ledger;
      assert FreshIds(s1.ledger, ids[1..]) by {
        forall i, t | 0 <= i < |ids[1..]| && t in s1.ledger ensures t.id != ids[1..][i] {
          assert ids[1..][i] == ids[i + 1];
          if resp.Created? && t == resp.tx {
            assert t.id == ids[0];
          } else {
            assert t in s.ledger;
          }
        }
      }
      var (s2, n) := Replay(s1, reqs[1..], ids[1..], times[1..]);
      var k := if resp.Created? then n + 1 else n;
      assert s2.ledger[k..] == s.ledger by {
        if resp.Created? {
          assert s2.ledger[n..] == [resp.tx] + s.ledger;
          assert s2.ledger[n + 1..] == (s2.ledger[n..])[1..];
        }
      }
      (s2, k)
  }

  /** Sending an amount and then receiving the same amount at the same price restores
      cash exactly, and leaves investments and the position count as they were. */
  lemma TransferRoundTrip(budget: Budget, ledger: Ledger, asset: string, amount: real, price: real,
                          id1: string, id2: string, t1: int, t2: int)
    requires id1 != id2 && forall t <- ledger :: t.id != id1 && t.id != id2
    requires Process(TransactionRequest(Some(Transfer), asset, amount, price, Some(Send)), budget, ledger, id1, t1).Success?
    ensures var a := Process(TransactionRequest(Some(Transfer), asset, amount, price, Some(Send)), budget, ledger, id1, t1).value;
            var b := Process(TransactionRequest(Some(Transfer), asset, amount, price, Some(Receive)), a.budget, a.ledger, id2, t2);
            && b.Success?
            && b.value.budget.cash == budget.cash
            && b.value.budget.investments == budget.investments
            && b.value.budget.activePositions == budget.activePositions
            && |b.value.ledger| == |ledger| + 2
  {
  }

  // ---------------------------------------------------------------------------------------
  // The seeded ledger
  // ---------------------------------------------------------------------------------------

  /** The ledger the route starts with (app/api/transactions/route.ts). */
  function SeedLedger(): (r: Ledger)
    ensures |r| == 7 && UniqueIds(r)
  {
    [ Transaction("t1", Buy, "AAPL", 5.0, 178.72, 893.6, 1701426600000, Completed, CurrentUserId, None),
      Transaction("t2", Sell, "TSLA", 2.0, 235.45, 470.9, 1701180900000, Completed, CurrentUserId, None),
      Transaction("t3", Buy, "MSFT", 3.0, 378.33, 1134.99, 1700905500000, Completed, CurrentUserId, None),
      Transaction("t4", Transfer, "USD", 1000.0, 1.0, 1000.0, 1700497200000, Completed, CurrentUserId, None),
      Transaction("t5", Buy, "NVDA", 2.0, 487.21, 974.42, 1700046600000, Completed, CurrentUserId, None),
      Transaction("t6", Sell, "AMZN", 4.0, 146.88, 587.52, 1699622700000, Completed, CurrentUserId, None),
      Transaction("t7", Buy, "GOOGL", 3.0, 134.99, 404.97, 1699198200000, Completed, CurrentUserId, None) ]
  }

  /** Buying 5 AAPL at 178.72 from 5231.89 in cash and 12234.00 invested: the value is
      893.60, cash becomes 4338.29, investments 13127.60 and the total 17465.89. AAPL was
      already bought in the seeded ledger, so the position count stays; a first buy of an
      asset the ledger has never bought adds one position. */
  lemma BuyScenario()
    ensures var budget := Budget(45231.89, 12234.0, 5231.89, 12);
            var r := Process(TransactionRequest(Some(Buy), "AAPL", 5.0, 178.72, None), budget, SeedLedger(), "n1", 0);
            && r.Success?
            && r.value.tx.value == 893.60
            && r.value.budget == Budget(17465.89, 13127.60, 4338.29, 12)
    ensures var budget := Budget(45231.89, 12234.0, 5231.89, 12);
            var r := Process(TransactionRequest(Some(Buy), "META", 1.0, 100.0, None), budget, SeedLedger(), "n1", 0);
            r.Success? && r.value.budget.activePositions == 13
  {
    assert SeedLedger()[0].asset == "AAPL";
    assert !HasCompletedBuy(SeedLedger(), "META");
  }

  /** Buying 1000 AAPL at 178.72 (178720) with 5231.89 in cash is refused. */
  lemma UnaffordableScenario()
    ensures var budget := Budget(45231.89, 12234.0, 5231.89, 12);
            Process(TransactionRequest(Some(Buy), "AAPL", 1000.0, 178.72, None), budget, SeedLedger(), "n1", 0)
              == Failure(InsufficientFunds)
  {
  }

  /** A transfer without a direction behaves exactly like an explicit send. */
  lemma DefaultDirectionScenario(budget: Budget, ledger: Ledger, asset: string, amount: real, price: real,
                                 freshId: string, now: int)
    requires forall t <- ledger :: t.id != freshId
    ensures Process(TransactionRequest(Some(Transfer), asset, amount, price, None), budget, ledger, freshId, now)
         == Process(TransactionRequest(Some(Transfer), asset, amount, price, Some(Send)), budget, ledger, freshId, now)
  {
  }
}
