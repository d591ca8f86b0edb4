/** The command step machine of one instrument, on values: the order store, both sides of
    the book, the order rows, the recorded trades and the published events. */
module Engine {
  import opened Orders
  import opened Matching
  import opened PriceTime

  /** The mutable columns of a row of the order table. */
  datatype Row = Row(remaining: Quantity, status: OrderStatus)

  datatype Event =
    | Rejected(rejectedId: OrderId, reason: string)
    | Executed(action: string, order: OrderData)
    | Traded(trade: Trade, buy: OrderData, sell: OrderData)

  datatype State = State(
    store: map<OrderId, OrderData>,
    bids: seq<OrderData>,
    asks: seq<OrderData>,
    rows: map<OrderId, Row>,
    recorded: seq<Trade>,
    events: seq<Event>,
    lastTradeId: TradeId)

  datatype Command =
    | Submit(order: OrderData)
    | Cancel(id: OrderId)
    | Modify(id: OrderId, price: Price, quantity: Quantity)

  const EMPTY := State(map[], [], [], map[], [], [], 0)

  function SideOf(e: State, side: Side): seq<OrderData> {
    if side == Buy then e.bids else e.asks
  }

  function WithSide(e: State, side: Side, s: seq<OrderData>): State {
    if side == Buy then e.(bids := s) else e.(asks := s)
  }

  // ---------------------------------------------------------------- order rows

  /** INSERT: a second row with the same key is refused. */
  function SaveRow(rows: map<OrderId, Row>, o: OrderData): map<OrderId, Row> {
    if o.id in rows then rows else rows[o.id := Row(o.remaining, o.status)]
  }

  /** UPDATE: touches a row only where there is one. */
  function UpdateRow(rows: map<OrderId, Row>, o: OrderData): map<OrderId, Row> {
    if o.id in rows then rows[o.id := Row(o.remaining, o.status)] else rows
  }

  // ---------------------------------------------------------------- risk gate

  /** The source compares |p - top| / top with 10 percent. */
  predicate Deviates(p: Price, top: Price)
    requires top > 0.0
  {
    (if p >= top then p - top else top - p) / top > 0.10
  }

  function TopOfBook(s: seq<OrderData>): Price {
    if s == [] then 0.0 else s[0].price
  }

  /** The scan stops at the first price the order does not cross. */
  predicate ScanSelfMatch(o: OrderData, s: seq<OrderData>) {
    s != [] && Crosses(o, s[0].price) && (s[0].sender == o.sender || ScanSelfMatch(o, s[1..]))
  }

  /** `s` is the opposite side of the book. */
  predicate PreCheck(o: OrderData, s: seq<OrderData>) {
    && o.original > 0
    && (o.otype == Limit ==>
          && o.price > 0.0
          && (TopOfBook(s) > 0.0 ==> !Deviates(o.price, TopOfBook(s))))
    && !ScanSelfMatch(o, s)
  }

  // ---------------------------------------------------------------- the trade loop

  /** Forgets an order in the store and in the table. */
  function Drop(e: State, id: OrderId): State {
    e.(store := e.store - {id}, rows := e.rows - {id})
  }

  function DropIfFilled(e: State, o: OrderData): State {
    if o.remaining == 0 then Drop(e, o.id) else e
  }

  /** One pass of the trade loop. Both orders must still be in the store. */
  function SettleTrade(e: State, t: Trade): State {
    if t.buyId in e.store && t.sellId in e.store then
      var buy, sell := e.store[t.buyId], e.store[t.sellId];
      var e' := e.(rows := UpdateRow(UpdateRow(e.rows, buy), sell), events := e.events + [Traded(t, buy, sell)]);
      DropIfFilled(DropIfFilled(e', buy), sell)
    else
      e
  }

  function TradeLoop(e: State, ts: seq<Trade>, record: bool): State
    decreases |ts|
  {
    if ts == [] then e
    else
      var e' := if record then e.(recorded := e.recorded + [ts[0]]) else e;
      TradeLoop(SettleTrade(e', ts[0]), ts[1..], record)
  }

  // ---------------------------------------------------------------- the commands

  function Lookup(s: seq<OrderData>, id: OrderId, otherwise: OrderData): OrderData {
    if s == [] then otherwise else if s[0].id == id then s[0] else Lookup(s[1..], id, otherwise)
  }

  /** The store after the orders in s changed in place. */
  function Refresh(store: map<OrderId, OrderData>, s: seq<OrderData>): map<OrderId, OrderData> {
    map id | id in store :: Lookup(s, id, store[id])
  }

  /** All orders a match can have touched, in their final state. */
  function Touched(m: Outcome): seq<OrderData> {
    [m.incoming] + m.consumed + m.rest
  }

  function MatchOf(e: State, o: OrderData): Outcome {
    Match(o, SideOf(e, Opposite(o.side)), e.lastTradeId)
  }

  function AfterMatch(e: State, o: OrderData): State {
    var m := MatchOf(e, o);
    WithSide(e, Opposite(o.side), m.rest)
      .(store := Refresh(e.store, Touched(m)), lastTradeId := e.lastTradeId + |m.trades|)
  }

  function Rest(e: State, o: OrderData): State {
    WithSide(e, o.side, Insert(o.side, SideOf(e, o.side), o))
  }

  /** Cancels on the bid side first, then on the ask side. */
  function TakeOff(e: State, id: OrderId): State {
    if HasId(e.bids, id) then e.(bids := Remove(e.bids, id)) else e.(asks := Remove(e.asks, id))
  }

  function Accept(e: State, o: OrderData): State {
    e.(store := e.store[o.id := o], rows := SaveRow(e.rows, o), events := e.events + [Executed("NEW", o)])
  }

  /** What follows the trade loop of a new order: a limit order with something left joins
      the book, a market order never does. */
  function PlaceNew(e: State, o: OrderData): State {
    var e' := if o.otype == Limit && o.id in e.store && o.remaining > 0 then Rest(e, o) else e;
    if o.otype == Market && o.id in e'.store then Drop(e', o.id) else e'
  }

  /** What follows the trade loop of a modified order, whatever its type. */
  function PlaceModified(e: State, o: OrderData): State {
    var e' := if o.id in e.store && o.remaining > 0 then Rest(e, o) else e;
    if o.id in e'.store && o.remaining == 0 then Drop(e', o.id) else e'
  }

  function NewOrder(e: State, o: OrderData): State {
    if !PreCheck(o, SideOf(e, Opposite(o.side))) then
      e.(events := e.events + [Rejected(o.id, "Risk check failed")])
    else
      var e1 := Accept(e, o);
      var m := MatchOf(e1, o);
      PlaceNew(TradeLoop(AfterMatch(e1, o), m.trades, true), m.incoming)
  }

  function CancelOrder(e: State, id: OrderId): State {
    if id !in e.store then
      e.(events := e.events + [Rejected(id, "Order not found")])
    else if HasId(e.bids, id) || HasId(e.asks, id) then
      var e1 := TakeOff(e, id);
      Drop(e1.(events := e1.events + [Executed("CANCELED", e.store[id])]), id)
    else
      e.(events := e.events + [Rejected(id, "Order cannot be canceled")])
  }

  /** The order as a modify leaves it before matching. */
  function Replaced(o: OrderData, price: Price, quantity: Quantity): OrderData {
    o.(price := price, original := quantity, remaining := quantity, status := OrderStatus.New)
  }

  function Reprice(e: State, o: OrderData): State {
    var e1 := TakeOff(e, o.id);
    e1.(store := e1.store[o.id := o], rows := SaveRow(e1.rows - {o.id}, o), events := e1.events + [Executed("REPLACED", o)])
  }

  function ModifyOrder(e: State, id: OrderId, price: Price, quantity: Quantity): State {
    if id !in e.store then
      e.(events := e.events + [Rejected(id, "Order not found")])
    else
      var o := Replaced(e.store[id], price, quantity);
      var e1 := Reprice(e, o);
      var m := MatchOf(e1, o);
      PlaceModified(TradeLoop(AfterMatch(e1, o), m.trades, false), m.incoming)
  }

  function Step(e: State, c: Command): State {
    match c
    case Submit(o) => NewOrder(e, o)
    case Cancel(id) => CancelOrder(e, id)
    case Modify(id, price, quantity) => ModifyOrder(e, id, price, quantity)
  }
}
