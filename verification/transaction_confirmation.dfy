/** The confirmation dialog shown after a transaction
    (components/transaction-confirmation.tsx): the status badge colour and the budget impact
    it announces, compared with what the route actually did. */
module TransactionConfirmation {
  import opened Wrappers
  import opened Types
  import opened TransactionsRoute

  /** The badge colours `getStatusColor` chooses between. */
  datatype BadgeColor = Green | Yellow | Red | Gray

  /** `getStatusColor`: completed, pending and failed have their own colour; any other
      string falls back to grey. */
  function StatusColor(status: string): (r: BadgeColor)
    ensures r == Green <==> status == "completed"
    ensures r == Yellow <==> status == "pending"
    ensures r == Red <==> status == "failed"
    ensures r == Gray <==> status !in {"completed", "pending", "failed"}
  {
    if status == "completed" then Green
    else if status == "pending" then Yellow
    else if status == "failed" then Red
    else Gray
  }

  /** Every status a transaction can carry gets its own, non-grey colour. */
  lemma StatusColorsDistinct(a: TxStatus, b: TxStatus)
    ensures StatusColor(StatusName(a)) != Gray
    ensures StatusColor(StatusName(a)) == StatusColor(StatusName(b)) <==> a == b
  {
  }

  /** The announced change to cash and to investments. */
  datatype Impact = Impact(cash: real, investments: real)

  /** `getBudgetImpact`: a buy moves the value from cash to investments, a sell moves it
      back, and anything else — every transfer, whichever way — announces the value as
      incoming cash. */
  function BudgetImpact(tx: Transaction): (r: Impact)
    ensures tx.kind == Buy ==> r.cash == -tx.value && r.investments == tx.value
    ensures tx.kind == Sell ==> r.cash == tx.value && r.investments == -tx.value
    ensures tx.kind == Transfer ==> r.cash == tx.value && r.investments == 0.0
    ensures tx.kind != Transfer ==> r.cash + r.investments == 0.0
  {
    match tx.kind
    case Buy => Impact(-tx.value, tx.value)
    case Sell => Impact(tx.value, -tx.value)
    case Transfer => Impact(tx.value, 0.0)
  }

  /** Sent transfers are the one case where the route and the dialog part ways. */
  predicate IsSendTransfer(tx: Transaction)
  {
    tx.kind == Transfer && tx.direction == Some(Send)
  }

  /** For every accepted request except a send-transfer, the dialog announces exactly the
      change the route made; for a send-transfer the route took from cash the amount the
      dialog announces as received. */
  lemma ImpactAgreesWithRoute(req: TransactionRequest, budget: Budget, ledger: Ledger, freshId: string, now: int)
    requires forall t <- ledger :: t.id != freshId
    requires Process(req, budget, ledger, freshId, now).Success?
    ensures var a := Process(req, budget, ledger, freshId, now).value;
      var i := BudgetImpact(a.tx);
      && (!IsSendTransfer(a.tx) ==>
            a.budget.cash == budget.cash + i.cash && a.budget.investments == budget.investments + i.investments)
      && (IsSendTransfer(a.tx) ==>
            a.budget.cash == budget.cash - i.cash && a.budget.investments == budget.investments + i.investments
            && i.cash > 0.0)
  {
    var a := Process(req, budget, ledger, freshId, now).value;
    if req.kind == Some(Transfer) {
      assert a.tx.direction == EffectiveDirection(req);
      assert EffectiveDirection(req) == Some(Send) <==> req.direction != Some(Receive) by {
        if req.direction.Some? {
          assert req.direction.value == Send || req.direction.value == Receive;
        }
      }
      assert req.amount * req.price > 0.0;
    }
  }
}
