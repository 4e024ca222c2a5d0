/** The `trading_orders` table, shared by the recurring scheduler and the
    conditional-order price monitor. Amounts are exact reals, times are seconds. */
module Trading {
  import opened Prelude

  type Id = int
  type UserId = int

  datatype Side = Buy | Sell
  datatype OrderType = Limit | Market
  datatype OrderStatus = OrderPending | OrderActive | PartiallyFilled | Filled | Settled | OrderCancelled | OrderExpired
  datatype TriggerType = StopLoss | TakeProfit | TrailingStop
  datatype TriggerStatus = TriggerPending | Triggered | TriggerCancelled

  const HOUR := 3600
  const DAY := 24 * HOUR

  /** What was ordered, set at insertion; only amount and price can be edited later. */
  datatype Deal = Deal(
    user: UserId,
    orderType: OrderType,
    side: Side,
    energy: real,
    price: real,
    createdAt: int,
    expiresAt: Option<int>,
    session: Option<string>)

  /** The condition columns, all optional but the status. */
  datatype Trigger = Trigger(
    kind: Option<TriggerType>,
    price: Option<real>,
    trailingOffset: Option<real>,
    status: TriggerStatus,
    triggeredAt: Option<int>)

  datatype TradingOrder = TradingOrder(deal: Deal, filled: real, status: OrderStatus, trigger: Trigger)

  /** The CHECK constraints of the table on `energy_amount` and `price_per_kwh`. */
  predicate Insertable(energy: real, price: real) {
    energy > 0.0 && price > 0.0
  }

  /** `PUT` on an order: an UPDATE by id whose owner and status checks were made earlier, so it
      can find the row in any state. */
  function Edited(row: TradingOrder, energy: real, price: real): TradingOrder {
    row.(deal := row.deal.(energy := energy, price := price))
  }

  /** Edits apart, nothing in a deal ever changes; edited values are positive. */
  predicate DealFrame(d: Deal, e: Deal) {
    e == d || (e == d.(energy := e.energy, price := e.price) && Insertable(e.energy, e.price))
  }

  /** The INSERT both services issue. It names no trigger column, so `trigger_type` is
      NULL and `trigger_status` takes the column default `'pending'`. */
  function SpawnedOrder(user: UserId, side: Side, energy: real, price: real, now: int, session: Option<string>): TradingOrder {
    TradingOrder(Deal(user, if price > 0.0 then Limit else Market, side, energy, price, now, Some(now + DAY), session),
                 0.0, OrderPending,
                 Trigger(None, None, None, TriggerPending, None))
  }
}
