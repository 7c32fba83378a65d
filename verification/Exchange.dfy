/** What the model needs of the two exchange clients: orders sent and arbitrary replies received. */
module Exchange {
  import BayesianEngine

  datatype Side = Buy | Sell

  datatype SubmitReply = SubmitReply(success: bool, orderId: string)

  // executedQty and avgPrice are zero when nothing was filled.
  datatype HedgeReply = HedgeReply(success: bool, orderId: string, executedQty: real, avgPrice: real)

  datatype OrderState = Unknown | Live | Matched | Filled | Cancelled

  datatype StatusReply = StatusReply(state: OrderState, avgPrice: real)

  // Amounts of a Polymarket order are raw units of six decimals; a hedge price of zero is a market order.
  datatype Order =
    | PolyOrder(side: Side, makerAmount: int, takerAmount: int)
    | HedgeOrder(side: Side, qty: real, price: real)
    | HedgeCancel(orderId: string)

  // One reading of the shared state: the signals and the three accounts.
  datatype View = View(signals: BayesianEngine.Shared, bankroll: real, exposure: real, openCount: int)

  // The engine publishes market probabilities strictly between zero and one.
  predicate WellQuoted(v: View) {
    0.0 < v.signals.pMarket < 1.0
  }
}
