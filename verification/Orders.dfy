/** Values shared by the matching engine: orders, trades, price priority.

    Prices are `real` (the source uses double; rounding is not modelled) and
    quantities are `nat`. */
module Orders {

  datatype Side = Buy | Sell
  datatype OrderType = Limit | Market
  datatype OrderStatus = New | PartiallyFilled | Filled | Cancelled

  type OrderId = nat
  type TradeId = nat
  type Price = real
  type Quantity = nat

  /** The value of an order object at one moment. */
  datatype OrderData = OrderData(
    id: OrderId,
    sender: string,
    side: Side,
    otype: OrderType,
    original: Quantity,
    remaining: Quantity,
    price: Price,
    status: OrderStatus)

  datatype Trade = Trade(id: TradeId, buyId: OrderId, sellId: OrderId, quantity: Quantity, price: Price)

  function Opposite(side: Side): Side {
    if side == Buy then Sell else Buy
  }

  /** Price p is ranked strictly ahead of price q on the given side of the book:
      bids descend, asks ascend. */
  predicate Better(side: Side, p: Price, q: Price) {
    if side == Buy then p > q else p < q
  }

  function Min(a: nat, b: nat): nat {
    if a < b then a else b
  }

  /** Sum of the remaining quantities. */
  function TotalRemaining(s: seq<OrderData>): nat {
    if s == [] then 0 else s[0].remaining + TotalRemaining(s[1..])
  }

  /** Sum of the traded quantities. */
  function TotalTraded(ts: seq<Trade>): nat {
    if ts == [] then 0 else ts[0].quantity + TotalTraded(ts[1..])
  }

  predicate DistinctIds(s: seq<OrderData>) {
    forall i, j | 0 <= i < j < |s| :: s[i].id != s[j].id
  }

  predicate HasId(s: seq<OrderData>, id: OrderId) {
    exists i | 0 <= i < |s| :: s[i].id == id
  }
}
