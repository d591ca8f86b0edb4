/** The worker of one instrument on heap objects: the order manager owns the orders, the
    book points to them, and the handlers change both in place. `View` is the value of the
    whole object graph; every handler is tied to the step function on that value. */
module Worker {
  import opened Orders
  import opened Matching
  import opened PriceTime
  import opened Engine
  import opened Invariants
  import opened Reachable
  import opened BookObjects
  import opened OrderBooks

  class OrderManager {
    var orders: map<OrderId, Order>

    constructor ()
      ensures orders == map[]
    {
      orders := map[];
    }

    method AddOrder(o: Order) returns (added: bool)
      modifies this
      ensures added <==> o.id !in old(orders)
      ensures orders == if added then old(orders)[o.id := o] else old(orders)
    {
      added := o.id !in orders;
      if added {
        orders := orders[o.id := o];
      }
    }

    method RemoveOrderById(id: OrderId)
      modifies this
      ensures orders == old(orders) - {id}
    {
      orders := orders - {id};
    }
  }

  class OrderRepository {
    var rows: map<OrderId, Row>

    constructor ()
      ensures rows == map[]
    {
      rows := map[];
    }

    method SaveOrder(o: Order)
      modifies this
      ensures rows == SaveRow(old(rows), o.Data())
    {
      if o.id !in rows {
        rows := rows[o.id := Row(o.remaining, o.status)];
      }
    }

    method UpdateOrder(o: Order)
      modifies this
      ensures rows == UpdateRow(old(rows), o.Data())
    {
      if o.id in rows {
        rows := rows[o.id := Row(o.remaining, o.status)];
      }
    }

    method UpdateBoth(buy: Order, sell: Order)
      modifies this
      ensures rows == UpdateRow(UpdateRow(old(rows), buy.Data()), sell.Data())
    {
      UpdateOrder(buy);
      UpdateOrder(sell);
    }

    method RemoveOrder(id: OrderId)
      modifies this
      ensures rows == old(rows) - {id}
    {
      rows := rows - {id};
    }
  }

  /** The trades recorded after the risk hook and the events published to clients. */
  class Tape {
    var recorded: seq<Trade>
    var events: seq<Event>

    constructor ()
      ensures recorded == [] && events == []
    {
      recorded, events := [], [];
    }

    method Record(t: Trade)
      modifies this`recorded
      ensures recorded == old(recorded) + [t]
    {
      recorded := recorded + [t];
    }

    method Publish(e: Event)
      modifies this`events
      ensures events == old(events) + [e]
    {
      events := events + [e];
    }
  }

  /** The matcher on one side, with what it leaves alone: the other side, and every other
      object of the manager. */
  method MatchAgainst(order: Order, side: BookSide, own: BookSide, ids: TradeIDGenerator, ghost objs: set<Order>)
    returns (trades: seq<Trade>, ghost refs: seq<Order>, ghost k: nat)
    requires side.Valid() && own.Valid() && side != own && side.side == Opposite(order.side)
    requires order !in Flat(side.levels) && order in objs && forall x | x in Flat(side.levels) :: x in objs
    requires forall x | x in Flat(own.levels) :: x != order && x !in Flat(side.levels)
    modifies ids, side`levels, objs`remaining, objs`status
    ensures refs == old(Flat(side.levels)) && k <= |refs| && Flat(side.levels) == refs[k..]
    ensures side.Valid() && own.Valid() && own.levels == old(own.levels) && own.Data() == old(own.Data())
    ensures Match(old(order.Data()), old(side.Data()), old(ids.current))
         == Outcome(order.Data(), Datas(refs[k..]), Datas(refs[..k]), trades)
    ensures ids.current == old(ids.current) + |trades|
    ensures forall x | x in objs && x != order && x !in refs :: x.Data() == old(x.Data())
  {
    refs := Flat(side.levels);
    ghost var ownRefs := Flat(own.levels);
    assert allocated(refs) && allocated(ownRefs);
    trades, k := MatchTable(order, side, ids);
    assert Flat(own.levels) == ownRefs;
  }

  /** Insertion on one side, with what it leaves alone on the other side. */
  method InsertBeside(side: BookSide, other: BookSide, order: Order)
    requires side.Valid() && other.Valid() && side != other && order !in Flat(side.levels)
    modifies side`levels
    ensures side.Valid() && side.Data() == Insert(side.side, old(side.Data()), order.Data())
    ensures forall x | x in Flat(side.levels) :: x == order || x in old(Flat(side.levels))
    ensures other.Valid() && other.levels == old(other.levels) && other.Data() == old(other.Data())
  {
    ghost var otherRefs := Flat(other.levels);
    assert allocated(otherRefs);
    InsertOrder(side, order);
    assert Flat(other.levels) == otherRefs;
  }

  /** Cancellation on one side, with what it leaves alone on the other side. */
  method CancelBeside(side: BookSide, other: BookSide, id: OrderId) returns (found: bool)
    requires side.Valid() && other.Valid() && side != other
    modifies side`levels
    ensures side.Valid() && side.Data() == Remove(old(side.Data()), id) && found == HasId(old(side.Data()), id)
    ensures forall x | x in Flat(side.levels) :: x in old(Flat(side.levels))
    ensures other.Valid() && other.levels == old(other.levels) && other.Data() == old(other.Data())
  {
    ghost var otherRefs := Flat(other.levels);
    assert allocated(otherRefs);
    var taken := CancelOn(side, id);
    assert Flat(other.levels) == otherRefs;
    found := taken != null;
  }

  /** The price of the best level, zero on an empty side. */
  function TopPrice(levels: seq<Level>): Price {
    if levels == [] then 0.0 else levels[0].price
  }

  lemma {:induction false} TopIsBest(side: BookSide)
    requires side.Valid()
    ensures TopPrice(side.levels) == TopOfBook(side.Data())
  {
    if side.levels != [] {
      FrontOf(side.side, side.levels);
    }
  }

  /** The risk gate against one side. `data` and `datas` are the values of the order and the
      side. */
  method PreCheckAgainst(order: Order, side: BookSide, ghost data: OrderData, ghost datas: seq<OrderData>) returns (ok: bool)
    requires side.Valid() && data == order.Data() && datas == side.Data()
    ensures ok <==> PreCheck(data, datas)
  {
    if order.original == 0 || (order.otype == Limit && order.price <= 0.0) {
      return false;
    }
    if order.otype == Limit {
      TopIsBest(side);
      var top := TopPrice(side.levels);
      if top > 0.0 {
        var deviation := (if order.price >= top then order.price - top else top - order.price) / top;
        if deviation > 0.10 {
          return false;
        }
      }
    }
    var hit := CheckForSelfMatch(order, side, data, datas);
    ok := !hit;
  }

  /** Every object is stored under its own id. */
  predicate UnderOwnIds(orders: map<OrderId, Order>) {
    forall id | id in orders :: orders[id].id == id
  }

  /** A pointer on this side is the manager's object of that id, as long as it has one. */
  predicate PointInto(orders: map<OrderId, Order>, refs: seq<Order>) {
    forall o | o in refs :: o.id in orders ==> orders[o.id] == o
  }

  class WorkerThread {
    const manager: OrderManager
    const bids: BookSide
    const asks: BookSide
    const table: OrderRepository
    const tape: Tape
    const ids: TradeIDGenerator
    ghost var state: State  // what the object graph means

    constructor ()
      ensures Valid() && state == EMPTY
    {
      manager := new OrderManager();
      bids := new BookSide(Buy);
      asks := new BookSide(Sell);
      table := new OrderRepository();
      tape := new Tape();
      ids := new TradeIDGenerator();
      state := EMPTY;
      new;
      EmptyIsValid();
    }

    lemma {:induction false} EmptyIsValid()
      requires manager.orders == map[] && bids.side == Buy && asks.side == Sell && bids.levels == asks.levels == [] && bids != asks
      requires table.rows == map[] && tape.recorded == [] && tape.events == [] && ids.current == 0
      ensures Rep() && View() == EMPTY && Inv(EMPTY)
    {
    }

    ghost function StoreView(): map<OrderId, OrderData>
      reads manager, manager.orders.Values
    {
      map id | id in manager.orders :: manager.orders[id].Data()
    }

    ghost function View(): State
      reads manager, manager.orders.Values, bids, Flat(bids.levels), asks, Flat(asks.levels), table, tape, ids
    {
      State(StoreView(), bids.Data(), asks.Data(), table.rows, tape.recorded, tape.events, ids.current)
    }

    function Table(side: Side): BookSide {
      if side == Buy then bids else asks
    }

    /** The two sides of the book, as an order of this side of the market sees them. */
    predicate Facing(side: Side, own: BookSide, other: BookSide) {
      own == Table(side) && other == Table(Opposite(side))
    }

    lemma {:induction false} ViewIs(e: State)
      requires StoreView() == e.store && bids.Data() == e.bids && asks.Data() == e.asks && table.rows == e.rows
      requires tape.recorded == e.recorded && tape.events == e.events && ids.current == e.lastTradeId
      ensures View() == e
    {
    }

    /** The object graph is well-formed. */
    ghost predicate Rep()
      reads manager, bids, Flat(bids.levels), asks, Flat(asks.levels)
    {
      && bids != asks && bids.side == Buy && asks.side == Sell
      && bids.Valid() && asks.Valid()
      && UnderOwnIds(manager.orders)
      && PointInto(manager.orders, Flat(bids.levels)) && PointInto(manager.orders, Flat(asks.levels))
    }

    ghost predicate Valid()
      reads this`state, manager, manager.orders.Values, bids, Flat(bids.levels), asks, Flat(asks.levels), table, tape, ids
    {
      Rep() && View() == state && Inv(state)
    }

    method Publish(event: Event)
      requires Rep()
      modifies tape`events
      ensures Rep() && View() == old(View()).(events := old(View()).events + [event])
    {
      assert allocated(Flat(bids.levels)) && allocated(Flat(asks.levels));
      tape.Publish(event);
    }

    method RemoveRow(id: OrderId)
      requires Rep()
      modifies table
      ensures Rep() && View() == old(View()).(rows := old(View()).rows - {id})
    {
      assert allocated(Flat(bids.levels)) && allocated(Flat(asks.levels));
      table.RemoveOrder(id);
    }

    method RemoveFromManager(id: OrderId)
      requires Rep()
      modifies manager
      ensures Rep() && View() == old(View()).(store := old(View()).store - {id})
      ensures manager.orders == old(manager.orders) - {id}
    {
      ghost var e := View();
      assert allocated(Flat(bids.levels)) && allocated(Flat(asks.levels));
      manager.RemoveOrderById(id);
      assert StoreView() == e.store - {id};
      ViewIs(e.(store := e.store - {id}));
    }

    /** Takes an order out of the table and the manager. */
    method Forget(id: OrderId)
      requires Rep()
      modifies manager, table
      ensures Rep() && View() == Drop(old(View()), id)
      ensures manager.orders == old(manager.orders) - {id}
    {
      RemoveRow(id);
      RemoveFromManager(id);
    }

    method ForgetIfFilled(order: Order)
      requires Rep()
      modifies manager, table
      ensures Rep() && View() == DropIfFilled(old(View()), order.Data())
      ensures manager.orders == if order.remaining == 0 then old(manager.orders) - {order.id} else old(manager.orders)
    {
      if order.remaining == 0 {
        Forget(order.id);
      }
    }

    /** Brings the rows of both orders up to date. */
    method UpdateRows(buy: Order, sell: Order)
      requires Rep()
      modifies table
      ensures Rep()
      ensures View() == old(View()).(rows := UpdateRow(UpdateRow(old(View()).rows, buy.Data()), sell.Data()))
    {
      assert allocated(Flat(bids.levels)) && allocated(Flat(asks.levels));
      table.UpdateBoth(buy, sell);
    }

    /** What a trade changes for two orders the manager still has. */
    method SettleBoth(t: Trade, buy: Order, sell: Order)
      requires Rep()
      modifies manager, table, tape`events
      ensures Rep()
      ensures var e := old(View());
        View() == DropIfFilled(DropIfFilled(e.(rows := UpdateRow(UpdateRow(e.rows, buy.Data()), sell.Data()),
                                               events := e.events + [Traded(t, buy.Data(), sell.Data())]), buy.Data()), sell.Data())
      ensures forall id | id in manager.orders :: id in old(manager.orders) && manager.orders[id] == old(manager.orders[id])
    {
      UpdateRows(buy, sell);
      Publish(Traded(t, buy.Data(), sell.Data()));
      ForgetIfFilled(buy);
      ForgetIfFilled(sell);
    }

    /** The lookups and updates of the trade loop for one trade. */
    method Settle(t: Trade)
      requires Rep()
      modifies manager, table, tape`events
      ensures Rep() && View() == SettleTrade(old(View()), t)
      ensures forall id | id in manager.orders :: id in old(manager.orders) && manager.orders[id] == old(manager.orders[id])
    {
      if t.buyId in manager.orders && t.sellId in manager.orders {
        SettleBoth(t, manager.orders[t.buyId], manager.orders[t.sellId]);
      }
    }

    method RecordTrade(t: Trade)
      requires Rep()
      modifies tape`recorded
      ensures Rep() && View() == old(View()).(recorded := old(View()).recorded + [t])
    {
      assert allocated(Flat(bids.levels)) && allocated(Flat(asks.levels));
      tape.Record(t);
    }

    /** The trade loop, which leaves every order as it is, `order` for one. */
    method HandleTrades(trades: seq<Trade>, record: bool, ghost order: Order)
      requires Rep()
      modifies manager, table, tape
      ensures Rep() && View() == TradeLoop(old(View()), trades, record) && order.Data() == old(order.Data())
      ensures forall id | id in manager.orders :: id in old(manager.orders) && manager.orders[id] == old(manager.orders[id])
    {
      ghost var whole := TradeLoop(View(), trades, record);
      var i := 0;
      assert trades[0..] == trades;
      while i < |trades|
        invariant i <= |trades| && Rep() && TradeLoop(View(), trades[i..], record) == whole
        invariant forall id | id in manager.orders :: id in old(manager.orders) && manager.orders[id] == old(manager.orders[id])
      {
        assert trades[i..][0] == trades[i] && trades[i..][1..] == trades[i + 1..];
        if record {
          RecordTrade(trades[i]);
        }
        Settle(trades[i]);
        i := i + 1;
      }
    }

    // -------------------------------------------------------------- matching

    /** Pointers on one side are stored objects while the engine invariant holds. */
    lemma {:induction false} PointsToStored(e: State, side: BookSide, i: nat)
      requires Rep() && (side == bids || side == asks) && e == View() && BookOk(e)
      requires i < |Flat(side.levels)|
      ensures var o := Flat(side.levels)[i]; o.id in manager.orders && manager.orders[o.id] == o
    {
      var o := Flat(side.levels)[i];
      assert side.Data()[i] == o.Data();
      assert o.Data() in side.Data();
      assert o in Flat(side.levels);
    }

    lemma {:induction false} AllPointToStored(e: State, side: BookSide)
      requires Rep() && (side == bids || side == asks) && e == View() && BookOk(e)
      ensures forall o | o in Flat(side.levels) :: o.id in manager.orders && manager.orders[o.id] == o && o.side == side.side
    {
      forall o | o in Flat(side.levels) ensures o.id in manager.orders && manager.orders[o.id] == o && o.side == side.side {
        var i :| 0 <= i < |Flat(side.levels)| && Flat(side.levels)[i] == o;
        PointsToStored(e, side, i);
        assert side.Data()[i] in side.Data() && MayRest(side.side, side.Data()[i]);
      }
    }

    /** The order being worked on is not on the book. */
    lemma {:induction false} NotOnBook(e: State, order: Order, side: BookSide)
      requires Rep() && (side == bids || side == asks) && e == View() && OffBook(e, order.id)
      ensures order !in Flat(side.levels)
    {
      assert forall i | 0 <= i < |Flat(side.levels)| :: side.Data()[i] in side.Data();
    }

    /** The matcher gets an order that is not on the book, and touches no object of that
        order's own side. */
    lemma {:induction false} ReadyForMatch(order: Order, own: BookSide, other: BookSide, e: State, o: OrderData)
      requires Rep() && e == View() && o == order.Data() && Working(e, o) && Facing(order.side, own, other)
      requires order.id in manager.orders && manager.orders[order.id] == order
      ensures order !in Flat(other.levels) && forall x | x in Flat(own.levels) :: x != order && x !in Flat(other.levels)
      ensures forall r | r in Flat(other.levels) :: r.id in manager.orders && manager.orders[r.id] == r
      ensures order in manager.orders.Values && forall r | r in Flat(other.levels) :: r in manager.orders.Values
    {
      AllPointToStored(e, own);
      AllPointToStored(e, other);
      NotOnBook(e, order, own);
      NotOnBook(e, order, other);
    }

    /** A side that only lost orders, and an untouched one, keep the object graph well-formed. */
    lemma {:induction false} RepAfterMatch(side: Side, own: BookSide, other: BookSide, refs: seq<Order>, k: nat)
      requires bids != asks && bids.side == Buy && asks.side == Sell && own.Valid() && other.Valid() && Facing(side, own, other)
      requires UnderOwnIds(manager.orders)
      requires PointInto(manager.orders, Flat(own.levels)) && k <= |refs| && Flat(other.levels) == refs[k..]
      requires forall r | r in refs :: r.id in manager.orders ==> manager.orders[r.id] == r
      ensures Rep()
    {
      assert forall x | x in refs[k..] :: x in refs;
    }

    /** Runs the matcher on the opposite side. `refs` are the orders that were resting there;
        the first k of them are filled. */
    method RunTable(order: Order, own: BookSide, other: BookSide, ghost e: State, ghost o: OrderData)
      returns (trades: seq<Trade>, ghost refs: seq<Order>, ghost k: nat)
      requires Rep() && order.id in manager.orders && manager.orders[order.id] == order && Facing(order.side, own, other)
      requires e == View() && o == order.Data() && Working(e, o)
      modifies ids, other`levels, manager.orders.Values`remaining, manager.orders.Values`status
      ensures refs == old(Flat(other.levels)) && k <= |refs| && Flat(other.levels) == refs[k..]
      ensures other.Valid() && own.Valid() && own.levels == old(own.levels) && own.Data() == old(own.Data())
      ensures MatchOf(e, o) == Outcome(order.Data(), Datas(refs[k..]), Datas(refs[..k]), trades)
      ensures manager.orders == old(manager.orders) && ids.current == e.lastTradeId + |trades|
      ensures forall x | x in manager.orders.Values && x != order && x !in refs :: x.Data() == old(x.Data())
      ensures forall r | r in refs :: r.id in manager.orders && manager.orders[r.id] == r
    {
      ReadyForMatch(order, own, other, e, o);
      trades, refs, k := MatchAgainst(order, other, own, ids, manager.orders.Values);
    }

    /** Runs the matcher and says what became of both sides and of every stored object. */
    method RunMatcher(order: Order, own: BookSide, other: BookSide, ghost e: State, ghost o: OrderData) returns (trades: seq<Trade>)
      requires Rep() && order.id in manager.orders && manager.orders[order.id] == order && Facing(order.side, own, other)
      requires e == View() && o == order.Data() && Working(e, o)
      modifies ids, other`levels, manager.orders.Values`remaining, manager.orders.Values`status
      ensures Rep() && manager.orders == old(manager.orders)
      ensures trades == MatchOf(e, o).trades && order.Data() == MatchOf(e, o).incoming && ids.current == e.lastTradeId + |trades|
      ensures other.Data() == MatchOf(e, o).rest && own.Data() == SideOf(e, order.side)
      ensures forall id | id in manager.orders :: manager.orders[id].Data() == AfterMatch(e, o).store[id]
    {
      ghost var s := SideOf(e, Opposite(o.side));
      assert s == Datas(Flat(other.levels));
      ghost var refs, k;
      trades, refs, k := RunTable(order, own, other, e, o);
      RepAfterMatch(order.side, own, other, refs, k);
      StoreMatches(e, o, manager.orders, order, s, refs, k);
    }

    /** Matches an order of the store that is not on the book against the other side. */
    method MatchOrder(order: Order, own: BookSide, other: BookSide, ghost e: State, ghost o: OrderData) returns (trades: seq<Trade>)
      requires Rep() && order.id in manager.orders && manager.orders[order.id] == order && Facing(order.side, own, other)
      requires View() == e && order.Data() == o && Working(e, o)
      modifies ids, other`levels, manager.orders.Values`remaining, manager.orders.Values`status
      ensures Rep() && manager.orders == old(manager.orders)
      ensures View() == AfterMatch(e, o)
      ensures trades == MatchOf(e, o).trades
      ensures order.Data() == MatchOf(e, o).incoming
    {
      assert manager.orders.Keys == e.store.Keys;
      trades := RunMatcher(order, own, other, e, o);
      ViewAfterMatch(order, own, other, e, o, |trades|);
    }

    lemma {:induction false} StoreIs(store: map<OrderId, OrderData>)
      requires manager.orders.Keys == store.Keys && forall id | id in manager.orders :: manager.orders[id].Data() == store[id]
      ensures StoreView() == store
    {
    }

    lemma {:induction false} ViewAfterMatch(order: Order, own: BookSide, other: BookSide, e: State, o: OrderData, n: nat)
      requires order.side == o.side && manager.orders.Keys == e.store.Keys && n == |MatchOf(e, o).trades| && Facing(order.side, own, other)
      requires forall id | id in manager.orders :: manager.orders[id].Data() == AfterMatch(e, o).store[id]
      requires other.Data() == MatchOf(e, o).rest && own.Data() == SideOf(e, order.side)
      requires ids.current == e.lastTradeId + n
      requires table.rows == e.rows && tape.recorded == e.recorded && tape.events == e.events
      ensures View() == AfterMatch(e, o)
    {
      var e1 := AfterMatch(e, o);
      StoreIs(e1.store);
      ViewIs(e1);
    }

    // -------------------------------------------------------------- risk gate and book access

    /** The risk gate for a new order. `data` and `datas` are the values of the order and of
        the opposite side. */
    method PreCheckOrder(order: Order, ghost data: OrderData, ghost datas: seq<OrderData>) returns (ok: bool)
      requires Rep() && data == order.Data() && datas == Table(Opposite(order.side)).Data()
      ensures ok <==> PreCheck(data, datas)
      ensures Rep() && View() == old(View())
    {
      assert allocated(Flat(bids.levels)) && allocated(Flat(asks.levels));
      ok := PreCheckAgainst(order, Table(Opposite(order.side)), data, datas);
    }

    /** What is left to show once one side of the book has changed. */
    lemma {:induction false} SideChanged(e: State, side: Side, own: BookSide, other: BookSide)
      requires bids != asks && bids.side == Buy && asks.side == Sell && own.Valid() && other.Valid() && Facing(side, own, other)
      requires UnderOwnIds(manager.orders) && PointInto(manager.orders, Flat(own.levels)) && PointInto(manager.orders, Flat(other.levels))
      requires StoreView() == e.store && other.Data() == SideOf(e, Opposite(side))
      requires table.rows == e.rows && tape.recorded == e.recorded && tape.events == e.events && ids.current == e.lastTradeId
      ensures Rep() && View() == WithSide(e, side, own.Data())
    {
      ViewIs(WithSide(e, side, own.Data()));
    }

    /** Puts an order of the store on its side of the book. */
    method InsertOn(own: BookSide, other: BookSide, order: Order)
      requires Rep() && order.id in manager.orders && manager.orders[order.id] == order && Facing(order.side, own, other)
      requires order !in Flat(own.levels)
      modifies own`levels
      ensures Rep() && View() == Rest(old(View()), order.Data())
    {
      ghost var e := View();
      assert allocated(Flat(own.levels)) && allocated(Flat(other.levels));
      InsertBeside(own, other, order);
      SideChanged(e, order.side, own, other);
    }

    method InsertInBook(order: Order)
      requires Rep() && order.id in manager.orders && manager.orders[order.id] == order
      requires order !in Flat(Table(order.side).levels)
      modifies Table(order.side)`levels
      ensures Rep() && View() == Rest(old(View()), order.Data())
    {
      InsertOn(Table(order.side), Table(Opposite(order.side)), order);
    }

    /** Cancels an order on one side. */
    method CancelOnSide(own: BookSide, other: BookSide, ghost side: Side, id: OrderId) returns (found: bool)
      requires Rep() && Facing(side, own, other)
      modifies own`levels
      ensures Rep() && found == HasId(SideOf(old(View()), side), id)
      ensures View() == WithSide(old(View()), side, Remove(SideOf(old(View()), side), id))
    {
      ghost var e := View();
      assert allocated(Flat(own.levels)) && allocated(Flat(other.levels));
      found := CancelBeside(own, other, id);
      SideChanged(e, side, own, other);
    }

    /** Cancels an order on the bid side or, failing that, on the ask side. */
    method CancelInBook(id: OrderId) returns (found: bool)
      requires Rep()
      modifies bids`levels, asks`levels
      ensures Rep() && View() == TakeOff(old(View()), id)
      ensures found <==> HasId(old(View()).bids, id) || HasId(old(View()).asks, id)
    {
      found := CancelOnSide(bids, asks, Buy, id);
      if !found {
        RemoveMissing(old(View()).bids, id);
        found := CancelOnSide(asks, bids, Sell, id);
      }
    }

    // -------------------------------------------------------------- the handlers

    predicate NoneHas(refs: seq<Order>, id: OrderId) {
      forall x | x in refs :: x.id != id
    }

    /** Hands an object to the manager; the book stays as it is. */
    method AddObject(order: Order)
      requires bids.Valid() && asks.Valid() && order.id !in manager.orders
      modifies manager
      ensures manager.orders == old(manager.orders)[order.id := order] && order.Data() == old(order.Data())
      ensures StoreView() == old(StoreView())[order.id := order.Data()]
      ensures bids.Valid() && asks.Valid() && bids.Data() == old(bids.Data()) && asks.Data() == old(asks.Data())
      ensures bids.levels == old(bids.levels) && asks.levels == old(asks.levels)
    {
      assert allocated(Flat(bids.levels)) && allocated(Flat(asks.levels));
      var _ := manager.AddOrder(order);
    }

    /** Hands an accepted order to the manager. */
    method AddToStore(order: Order, ghost e: State)
      requires Rep() && order.id !in manager.orders && View() == e
      requires NoneHas(Flat(bids.levels), order.id) && NoneHas(Flat(asks.levels), order.id)
      modifies manager
      ensures Rep() && View() == e.(store := e.store[order.id := order.Data()]) && order.Data() == old(order.Data())
      ensures manager.orders == old(manager.orders)[order.id := order]
    {
      AddObject(order);
      assert NoneHas(Flat(bids.levels), order.id) && NoneHas(Flat(asks.levels), order.id);
      ViewIs(e.(store := e.store[order.id := order.Data()]));
    }

    /** No pointer on the book has an id that is off the book. */
    lemma {:induction false} FreshOnBook(e: State, id: OrderId)
      requires Rep() && e == View() && OffBook(e, id)
      ensures NoneHas(Flat(bids.levels), id) && NoneHas(Flat(asks.levels), id)
    {
      assert forall i | 0 <= i < |Flat(bids.levels)| :: bids.Data()[i] in bids.Data();
      assert forall i | 0 <= i < |Flat(asks.levels)| :: asks.Data()[i] in asks.Data();
    }

    method SaveOrderRow(order: Order)
      requires Rep()
      modifies table
      ensures Rep() && View() == old(View()).(rows := SaveRow(old(View()).rows, order.Data()))
    {
      assert allocated(Flat(bids.levels)) && allocated(Flat(asks.levels));
      table.SaveOrder(order);
    }

    /** Stores an accepted order, saves its row and announces it. */
    method AcceptOrder(order: Order, ghost e: State)
      requires Rep() && order.id !in manager.orders && View() == e && OffBook(e, order.id)
      modifies manager, table, tape`events
      ensures Rep() && View() == Accept(e, order.Data()) && order.Data() == old(order.Data())
      ensures manager.orders == old(manager.orders)[order.id := order]
    {
      FreshOnBook(e, order.id);
      AddToStore(order, e);
      SaveOrderRow(order);
      Publish(Executed("NEW", order.Data()));
    }

    /** The match and the trade loop of an order of the store. */
    method MatchAndSettle(order: Order, own: BookSide, other: BookSide, record: bool, ghost e: State, ghost o: OrderData)
      requires Rep() && order.id in manager.orders && manager.orders[order.id] == order && Facing(order.side, own, other)
      requires View() == e && order.Data() == o && Working(e, o)
      modifies manager, table, tape, ids, other`levels
      modifies manager.orders.Values`remaining, manager.orders.Values`status
      ensures Rep() && View() == TradeLoop(AfterMatch(e, o), MatchOf(e, o).trades, record)
      ensures order.Data() == MatchOf(e, o).incoming
      ensures order.id in manager.orders ==> manager.orders[order.id] == order
    {
      var trades := MatchOrder(order, own, other, e, o);
      HandleTrades(trades, record, order);
    }

    /** The last part of the handler for new orders. */
    method PlaceNewOrder(order: Order, ghost e: State, ghost o: OrderData)
      requires Rep() && View() == e && order.Data() == o
      requires order.id in manager.orders ==> manager.orders[order.id] == order && OffBook(e, order.id)
      modifies manager, table, bids`levels, asks`levels
      ensures Rep() && View() == PlaceNew(e, o)
    {
      if order.otype == Limit && order.id in manager.orders && order.remaining > 0 {
        NotOnBook(e, order, Table(order.side));
        InsertInBook(order);
      }
      if order.otype == Market && order.id in manager.orders {
        Forget(order.id);
      }
    }

    method AcceptAndMatch(order: Order, ghost e: State, ghost o: OrderData)
      requires Rep() && View() == e && order.Data() == o && order.id !in manager.orders
      requires OffBook(e, o.id) && Working(Accept(e, o), o)
      modifies manager, table, tape, ids, bids`levels, asks`levels, order`remaining, order`status
      modifies manager.orders.Values`remaining, manager.orders.Values`status
      ensures Rep() && View() == TradeLoop(AfterMatch(Accept(e, o), o), MatchOf(Accept(e, o), o).trades, true)
      ensures order.Data() == MatchOf(Accept(e, o), o).incoming
      ensures order.id in manager.orders ==> manager.orders[order.id] == order
    {
      AcceptOrder(order, e);
      MatchAndSettle(order, Table(order.side), Table(Opposite(order.side)), true, Accept(e, o), o);
    }

    /** Everything after the risk gate. */
    method ProcessAccepted(order: Order, ghost e: State, ghost o: OrderData)
      requires Rep() && View() == e && order.Data() == o && order.id !in manager.orders
      requires OffBook(e, o.id) && Working(Accept(e, o), o)
      modifies manager, table, tape, ids, bids`levels, asks`levels, order`remaining, order`status
      modifies manager.orders.Values`remaining, manager.orders.Values`status
      ensures var e1 := Accept(e, o); var m := MatchOf(e1, o);
        Rep() && View() == PlaceNew(TradeLoop(AfterMatch(e1, o), m.trades, true), m.incoming)
    {
      ghost var e1 := Accept(e, o);
      AcceptAndMatch(order, e, o);
      AfterLoopKeeps(e1, o, true);
      PlaceNewOrder(order, TradeLoop(AfterMatch(e1, o), MatchOf(e1, o).trades, true), MatchOf(e1, o).incoming);
    }

    ghost method SetState(e: State)
      requires Rep() && View() == e && Inv(e)
      modifies this`state
      ensures Valid() && state == e
    {
      assert allocated(Flat(bids.levels)) && allocated(Flat(asks.levels));
      state := e;
    }

    /** The handler for new orders, on the value of the object graph. */
    method RunNewOrder(order: Order, ghost e: State, ghost o: OrderData)
      requires Rep() && View() == e && order.Data() == o && order.id !in manager.orders
      requires OffBook(e, o.id) && Working(Accept(e, o), o)
      modifies manager, table, tape, ids, bids`levels, asks`levels, order`remaining, order`status
      modifies manager.orders.Values`remaining, manager.orders.Values`status
      ensures Rep() && View() == NewOrder(e, o)
    {
      var ok := PreCheckOrder(order, o, SideOf(e, Opposite(order.side)));
      if ok {
        ProcessAccepted(order, e, o);
      } else {
        Publish(Rejected(order.id, "Risk check failed"));
      }
    }

    /** A new order: risk gate, store, match, settle, then rest or forget. */
    method ProcessNewOrder(order: Order)
      requires Valid() && Admissible(state, Submit(order.Data()))
      modifies this`state, manager, table, tape, ids, bids`levels, asks`levels, order`remaining, order`status
      modifies manager.orders.Values`remaining, manager.orders.Values`status
      ensures Valid() && state == NewOrder(old(state), old(order.Data()))
    {
      ghost var e, o := state, order.Data();
      assert order.id !in manager.orders by {
        assert StoreView().Keys == e.store.Keys;
      }
      AcceptWorks(e, o);
      RunNewOrder(order, e, o);
      NewKeeps(e, o);
      SetState(NewOrder(e, o));
    }
  
    /** The handler for cancellations, on the value of the object graph. */
    method RunCancelOrder(id: OrderId, ghost e: State)
      requires Rep() && View() == e
      modifies manager, table, tape`events, bids`levels, asks`levels
      ensures Rep() && View() == CancelOrder(e, id)
    {
      if id !in manager.orders {
        Publish(Rejected(id, "Order not found"));
      } else {
        CancelStored(manager.orders[id], id, e);
      }
    }

    method CancelStored(order: Order, id: OrderId, ghost e: State)
      requires Rep() && View() == e && id in manager.orders && manager.orders[id] == order
      modifies manager, table, tape`events, bids`levels, asks`levels
      ensures Rep() && View() == CancelOrder(e, id)
    {
      assert order.Data() == e.store[id];
      var found := CancelInBook(id);
      if found {
        Publish(Executed("CANCELED", order.Data()));
        Forget(id);
      } else {
        NothingTaken(e, id);
        Publish(Rejected(id, "Order cannot be canceled"));
      }
    }

    lemma {:induction false} NothingTaken(e: State, id: OrderId)
      requires !HasId(e.bids, id) && !HasId(e.asks, id)
      ensures TakeOff(e, id) == e
    {
      RemoveMissing(e.asks, id);
    }

    /** A cancellation: off the book, out of the table and out of the store. */
    method ProcessCancelOrder(id: OrderId)
      requires Valid()
      modifies this`state, manager, table, tape`events, bids`levels, asks`levels
      ensures Valid() && state == CancelOrder(old(state), id)
    {
      ghost var e := state;
      RunCancelOrder(id, e);
      CancelKeeps(e, id);
      SetState(CancelOrder(e, id));
    }

    /** New terms for an object that is on neither side; both sides stay as they are. */
    method ReplaceObject(order: Order, price: Price, quantity: Quantity)
      requires bids.Valid() && asks.Valid() && order !in Flat(bids.levels) && order !in Flat(asks.levels)
      modifies order
      ensures order.Data() == Replaced(old(order.Data()), price, quantity)
      ensures bids.Valid() && asks.Valid() && bids.Data() == old(bids.Data()) && asks.Data() == old(asks.Data())
    {
      assert allocated(Flat(bids.levels)) && allocated(Flat(asks.levels));
      order.Replace(price, quantity);
    }

    /** Gives an order of the store that is off the book a new price and quantity. */
    method SetTerms(order: Order, price: Price, quantity: Quantity, ghost e: State)
      requires Rep() && View() == e && order !in Flat(bids.levels) && order !in Flat(asks.levels)
      requires order.id in manager.orders && manager.orders[order.id] == order
      modifies order
      ensures Rep() && order.Data() == Replaced(old(order.Data()), price, quantity)
      ensures View() == e.(store := e.store[order.id := order.Data()])
    {
      ReplaceObject(order, price, quantity);
      assert StoreView() == e.store[order.id := order.Data()];
      ViewIs(e.(store := e.store[order.id := order.Data()]));
    }

    /** Takes the order off the book and gives it its new terms, row and announcement. */
    method ReplaceOrder(order: Order, price: Price, quantity: Quantity, ghost e: State)
      requires Rep() && View() == e && OffBook(TakeOff(e, order.id), order.id)
      requires order.id in manager.orders && manager.orders[order.id] == order
      modifies order, table, tape`events, bids`levels, asks`levels
      ensures Rep() && order.Data() == Replaced(old(order.Data()), price, quantity)
      ensures View() == Reprice(e, order.Data())
    {
      var _ := CancelInBook(order.id);
      RewriteOrder(order, price, quantity, TakeOff(e, order.id));
    }

    /** New terms, row and announcement for an order that is off the book. */
    method RewriteOrder(order: Order, price: Price, quantity: Quantity, ghost e: State)
      requires Rep() && View() == e && OffBook(e, order.id)
      requires order.id in manager.orders && manager.orders[order.id] == order
      modifies order, table, tape`events
      ensures Rep() && order.Data() == Replaced(old(order.Data()), price, quantity)
      ensures View() == e.(store := e.store[order.id := order.Data()], rows := SaveRow(e.rows - {order.id}, order.Data()),
                           events := e.events + [Executed("REPLACED", order.Data())])
    {
      NotOnBook(e, order, bids);
      NotOnBook(e, order, asks);
      RemoveRow(order.id);
      SetTerms(order, price, quantity, e.(rows := e.rows - {order.id}));
      SaveOrderRow(order);
      Publish(Executed("REPLACED", order.Data()));
    }

    /** The last part of the handler for modified orders. */
    method PlaceModifiedOrder(order: Order, ghost e: State, ghost o: OrderData)
      requires Rep() && View() == e && order.Data() == o
      requires order.id in manager.orders ==> manager.orders[order.id] == order && OffBook(e, order.id)
      modifies manager, table, bids`levels, asks`levels
      ensures Rep() && View() == PlaceModified(e, o)
    {
      if order.id in manager.orders && order.remaining > 0 {
        NotOnBook(e, order, Table(order.side));
        InsertInBook(order);
      }
      if order.id in manager.orders && order.remaining == 0 {
        Forget(order.id);
      }
    }

    method ReplaceAndMatch(order: Order, price: Price, quantity: Quantity, ghost e: State, ghost o: OrderData)
      requires Rep() && View() == e && order.id in manager.orders && manager.orders[order.id] == order
      requires o == Replaced(order.Data(), price, quantity)
      requires OffBook(TakeOff(e, o.id), o.id) && Working(Reprice(e, o), o)
      modifies manager, table, tape, ids, bids`levels, asks`levels, order
      modifies manager.orders.Values`remaining, manager.orders.Values`status
      ensures Rep() && View() == TradeLoop(AfterMatch(Reprice(e, o), o), MatchOf(Reprice(e, o), o).trades, false)
      ensures order.Data() == MatchOf(Reprice(e, o), o).incoming
      ensures order.id in manager.orders ==> manager.orders[order.id] == order
    {
      ReplaceOrder(order, price, quantity, e);
      MatchAndSettle(order, Table(order.side), Table(Opposite(order.side)), false, Reprice(e, o), o);
    }

    /** The handler for modifications of a stored order, on the value of the object graph. */
    method RunModifyOrder(order: Order, price: Price, quantity: Quantity, ghost e: State, ghost o: OrderData)
      requires Rep() && View() == e && order.id in manager.orders && manager.orders[order.id] == order
      requires o == Replaced(order.Data(), price, quantity)
      requires OffBook(TakeOff(e, o.id), o.id) && Working(Reprice(e, o), o)
      modifies manager, table, tape, ids, bids`levels, asks`levels, order
      modifies manager.orders.Values`remaining, manager.orders.Values`status
      ensures var e1 := Reprice(e, o); var m := MatchOf(e1, o);
        Rep() && View() == PlaceModified(TradeLoop(AfterMatch(e1, o), m.trades, false), m.incoming)
    {
      ghost var e1 := Reprice(e, o);
      ReplaceAndMatch(order, price, quantity, e, o);
      AfterLoopKeeps(e1, o, false);
      PlaceModifiedOrder(order, TradeLoop(AfterMatch(e1, o), MatchOf(e1, o).trades, false), MatchOf(e1, o).incoming);
    }

    /** A modification: off the book, new terms, match again, then rest or forget. */
    method ProcessModifyOrder(id: OrderId, price: Price, quantity: Quantity)
      requires Valid()
      modifies this`state, manager, table, tape, ids, bids`levels, asks`levels, manager.orders.Values
      ensures Valid() && state == ModifyOrder(old(state), id, price, quantity)
    {
      ghost var e := state;
      if id !in manager.orders {
        Publish(Rejected(id, "Order not found"));
      } else {
        var order := manager.orders[id];
        ghost var o := Replaced(e.store[id], price, quantity);
        TakeOffKeeps(e, id);
        ReplaceWorks(e, o);
        RunModifyOrder(order, price, quantity, e, o);
      }
      ModifyKeeps(e, id, price, quantity);
      SetState(ModifyOrder(e, id, price, quantity));
    }

    /** A submitted request becomes an order object. */
    method TakeOrder(o: OrderData)
      requires Valid() && Admissible(state, Submit(o))
      modifies this`state, manager, table, tape, ids, bids`levels, asks`levels
      modifies manager.orders.Values`remaining, manager.orders.Values`status
      ensures Valid() && state == NewOrder(old(state), o)
    {
      assert allocated(Flat(bids.levels)) && allocated(Flat(asks.levels));
      var order := new Order(o.id, o.sender, o.side, o.otype, o.original, o.price);
      ProcessNewOrder(order);
    }

    /** The dispatch of one queued command: the object graph takes exactly the step of the
        command machine. */
    method ProcessCommand(c: Command)
      requires Valid() && Admissible(state, c)
      modifies this`state, manager, table, tape, ids, bids`levels, asks`levels, manager.orders.Values
      ensures Valid() && state == Step(old(state), c)
    {
      match c
      case Submit(o) =>
        TakeOrder(o);
      case Cancel(id) => ProcessCancelOrder(id);
      case Modify(id, price, quantity) => ProcessModifyOrder(id, price, quantity);
    }
  }

  /** After a match every stored object has the value the step function gives it. */
  lemma {:induction false} StoreMatches(e: State, o: OrderData, objs: map<OrderId, Order>, order: Order, s: seq<OrderData>, refs: seq<Order>, k: nat)
    requires Working(e, o) && s == SideOf(e, Opposite(o.side)) && e.store.Keys == objs.Keys && order.id == o.id
    requires forall id | id in objs :: objs[id].id == id
    requires forall r | r in refs :: r.id in objs && objs[r.id] == r
    requires o.id in objs && objs[o.id] == order
    requires |s| == |refs| && (forall i | 0 <= i < |s| :: s[i].id == refs[i].id) && k <= |refs|
    requires var m := MatchOf(e, o); order.Data() == m.incoming && Datas(refs[..k]) == m.consumed && Datas(refs[k..]) == m.rest
    requires forall id | id in objs :: objs[id] != order && objs[id] !in refs ==> objs[id].Data() == e.store[id]
    ensures forall id | id in objs :: objs[id].Data() == AfterMatch(e, o).store[id]
  {
    var m := MatchOf(e, o);
    forall id | id in objs
      ensures objs[id].Data() == AfterMatch(e, o).store[id]
    {
      StoreAfterMatch(e, o, id);
      var x := objs[id];
      if x == order {
      } else if x in refs {
        var i :| 0 <= i < |refs| && refs[i] == x;
        StoredInSequence(refs, k, i, m);
      } else {
        NotInSide(s, refs, objs, id);
      }
    }
  }

  lemma {:induction false} StoredInSequence(refs: seq<Order>, k: nat, i: nat, m: Outcome)
    requires k <= |refs| && i < |refs|
    requires Datas(refs[..k]) == m.consumed && Datas(refs[k..]) == m.rest
    ensures refs[i].Data() in m.consumed || refs[i].Data() in m.rest
  {
    if i < k {
      assert m.consumed[i] == refs[i].Data();
    } else {
      assert m.rest[i - k] == refs[i].Data();
    }
  }

  lemma {:induction false} NotInSide(s: seq<OrderData>, refs: seq<Order>, objs: map<OrderId, Order>, id: OrderId)
    requires |s| == |refs| && forall i | 0 <= i < |s| :: s[i].id == refs[i].id
    requires forall r | r in refs :: r.id in objs && objs[r.id] == r
    requires id in objs && objs[id] !in refs
    ensures forall x | x in s :: x.id != id
  {
    forall x | x in s ensures x.id != id {
      var i :| 0 <= i < |s| && s[i] == x;
      assert refs[i] in refs;
    }
  }
}
