/** Every state reachable from the empty book satisfies the engine invariant. */
module Reachable {
  import opened Orders
  import opened Matching
  import opened PriceTime
  import opened Engine
  import opened Invariants
  import opened TradeLoops

  // ---------------------------------------------------------------- the match keeps the book

  lemma {:induction false} SidesShareNoId(e: State, x: OrderData, y: OrderData)
    requires BookOk(e) && x in e.bids && y in e.asks
    ensures x.id != y.id
  {
    assert MayRest(Buy, x) && MayRest(Sell, y);
  }

  lemma {:induction false} OwnSideUntouched(e: State, o: OrderData)
    requires Working(e, o)
    ensures Owned(AfterMatch(e, o).store, SideOf(e, o.side))
  {
    forall x | x in SideOf(e, o.side)
      ensures x.id in e.store && AfterMatch(e, o).store[x.id] == x
    {
      forall y | y in SideOf(e, Opposite(o.side)) ensures y.id != x.id {
        if o.side == Buy { SidesShareNoId(e, x, y); } else { SidesShareNoId(e, y, x); }
      }
      StoreAfterMatch(e, o, x.id);
    }
  }

  lemma {:induction false} RestOwned(e: State, o: OrderData)
    requires Working(e, o)
    ensures Owned(AfterMatch(e, o).store, MatchOf(e, o).rest)
  {
    AfterMatchHolds(e, o);
    var m := MatchOf(e, o);
    forall x | x in m.rest ensures x in m.consumed + m.rest {
    }
  }

  lemma {:induction false} RestUncrossed(e: State, o: OrderData)
    requires BookOk(e)
    ensures var e1 := AfterMatch(e, o); Uncrossed(e1.bids, e1.asks)
  {
    var s := SideOf(e, Opposite(o.side));
    var m := MatchOf(e, o);
    FillLeavesSuffix(o, s, e.lastTradeId);
    forall x | x in m.rest ensures exists y :: y in s && y.price == x.price {
      var i :| 0 <= i < |m.rest| && m.rest[i] == x;
      assert s[|m.consumed| + i] in s;
    }
  }

  /** The order's entry is as a stored order's should be. */
  predicate FiledOrder(e: State, id: OrderId) {
    id in e.store && e.store[id].id == id && e.store[id].otype == Limit && e.store[id].remaining <= e.store[id].original
    && (e.store[id].remaining > 0 ==> e.store[id] in SideOf(e, e.store[id].side))
  }

  /** A match leaves a limit order of the other side at rest, or with nothing left. */
  lemma {:induction false} RestingOutcome(o: OrderData, s: seq<OrderData>, lastId: TradeId, i: nat)
    requires SideOk(Opposite(o.side), s) && i < |s|
    ensures var m := Match(o, s, lastId); i < |m.consumed + m.rest|
    ensures var m := Match(o, s, lastId); var x := (m.consumed + m.rest)[i];
      && x.id == s[i].id && x.side == Opposite(o.side) && x.otype == Limit && x.remaining <= x.original
      && (x.remaining > 0 ==> x in m.rest)
  {
    var m := Match(o, s, lastId);
    TouchedAt(o, s, lastId, i);
    SameIds(o, s, lastId);
    TouchedFrom(m, i);
    ConsumedAndRest(o, s, lastId);
    assert s[i] in s;
    assert (m.consumed + m.rest)[i] in m.consumed || (m.consumed + m.rest)[i] in m.rest;
  }

  lemma {:induction false} RestingStaysFiled(e: State, o: OrderData, i: nat)
    requires Working(e, o) && i < |SideOf(e, Opposite(o.side))|
    ensures FiledOrder(AfterMatch(e, o), SideOf(e, Opposite(o.side))[i].id)
  {
    SideApart(e, o);
    RestingOutcome(o, SideOf(e, Opposite(o.side)), e.lastTradeId, i);
    TouchedStored(e, o, i);
  }

  lemma {:induction false} OtherStaysFiled(e: State, o: OrderData, id: OrderId)
    requires Working(e, o) && id in e.store && id != o.id
    requires forall x | x in SideOf(e, Opposite(o.side)) :: x.id != id
    ensures FiledOrder(AfterMatch(e, o), id)
  {
    SideApart(e, o);
    StoreAfterMatch(e, o, id);
  }

  lemma {:induction false} MatchKeepsFiled(e: State, o: OrderData)
    requires Working(e, o)
    ensures Filed(AfterMatch(e, o), {o.id})
  {
    var s, e1 := SideOf(e, Opposite(o.side)), AfterMatch(e, o);
    assert o.id in e1.store && e1.store[o.id].id == o.id by {
      AfterMatchHolds(e, o);
    }
    forall id | id in e1.store && id != o.id ensures FiledOrder(e1, id) {
      if i :| 0 <= i < |s| && s[i].id == id {
        RestingStaysFiled(e, o, i);
      } else {
        OtherStaysFiled(e, o, id);
      }
    }
  }

  lemma {:induction false} AfterMatchKeeps(e: State, o: OrderData)
    requires Working(e, o)
    ensures Working(AfterMatch(e, o), MatchOf(e, o).incoming)
  {
    var s := SideOf(e, Opposite(o.side));
    var m, e1 := MatchOf(e, o), AfterMatch(e, o);
    FillKeepsSide(o, s, e.lastTradeId);
    OwnSideUntouched(e, o);
    RestOwned(e, o);
    RestUncrossed(e, o);
    MatchKeepsFiled(e, o);
    AfterMatchHolds(e, o);
    forall x | x in m.rest ensures x.id != o.id {
      assert x in m.consumed + m.rest;
    }
  }

  // ---------------------------------------------------------------- the loop keeps the book

  /** Orders with nothing left can go: they are not on the book. */
  lemma {:induction false} GoneKeeps(e1: State, e2: State, inc: OrderData, gone: set<OrderId>)
    requires Working(e1, inc)
    requires forall id | id in gone && id in e1.store :: e1.store[id].remaining == 0
    requires e2.bids == e1.bids && e2.asks == e1.asks
    requires e2.store == e1.store - gone && e2.rows.Keys == e1.rows.Keys - gone
    ensures if inc.id in gone then Inv(e2) else Working(e2, inc)
  {
    forall x | x in e1.bids ensures x.id !in gone {
      assert MayRest(Buy, x);
    }
    forall x | x in e1.asks ensures x.id !in gone {
      assert MayRest(Sell, x);
    }
  }

  lemma {:induction false} ConsumedIsFilled(e: State, o: OrderData)
    requires Working(e, o)
    ensures forall x | x in MatchOf(e, o).consumed ::
      x.id != o.id && x.id in AfterMatch(e, o).store && AfterMatch(e, o).store[x.id].remaining == 0
  {
    var m := MatchOf(e, o);
    AfterMatchHolds(e, o);
    ConsumedAndRest(o, SideOf(e, Opposite(o.side)), e.lastTradeId);
    forall x | x in m.consumed ensures x in m.consumed + m.rest {
    }
  }

  lemma {:induction false} GoneIsFilled(e: State, o: OrderData)
    requires Working(e, o)
    ensures var m := MatchOf(e, o);
      && (forall id | id in Gone(m) :: id in AfterMatch(e, o).store && AfterMatch(e, o).store[id].remaining == 0)
      && (o.id in Gone(m) <==> m.incoming.remaining == 0 && m.trades != [])
  {
    var m := MatchOf(e, o);
    assert m.incoming.id == o.id && o.id in AfterMatch(e, o).store && AfterMatch(e, o).store[o.id] == m.incoming by {
      AfterMatchHolds(e, o);
    }
    ConsumedIsFilled(e, o);
    assert m.consumed != [] ==> m.consumed[0] in m.consumed;
  }

  lemma {:induction false} RowsAfterKeys(rows: map<OrderId, Row>, m: Outcome)
    requires |m.trades| <= |m.consumed| + |m.rest|
    ensures RowsAfter(rows, m).Keys == rows.Keys
  {
  }

  lemma {:induction false} AfterLoopWorks(e1: State, m: Outcome, record: bool)
    requires Working(e1, m.incoming) && |m.trades| <= |m.consumed| + |m.rest|
    requires forall id | id in Gone(m) && id in e1.store :: e1.store[id].remaining == 0
    ensures var e2 := AfterLoop(e1, m, record); if m.incoming.id in Gone(m) then Inv(e2) else Working(e2, m.incoming)
  {
    RowsAfterKeys(e1.rows, m);
    GoneKeeps(e1, AfterLoop(e1, m, record), m.incoming, Gone(m));
  }

  /** The state after the trade loop: either the incoming order is gone and the invariant
      is back, or only that order is still to be placed. */
  lemma {:induction false} AfterLoopKeeps(e: State, o: OrderData, record: bool)
    requires Working(e, o)
    ensures var m := MatchOf(e, o); var e2 := TradeLoop(AfterMatch(e, o), m.trades, record);
      && m.incoming.id == o.id
      && (o.id in e2.store <==> m.incoming.remaining > 0 || m.trades == [])
      && (if o.id in e2.store then Working(e2, m.incoming) else Inv(e2))
  {
    var m, e1 := MatchOf(e, o), AfterMatch(e, o);
    GoneIsFilled(e, o);
    assert m.incoming.id == o.id && o.id in e1.store by {
      AfterMatchHolds(e, o);
    }
    assert |m.trades| <= |m.consumed| + |m.rest| by {
      LoopEffect(e, o, record);
    }
    var e2 := AfterLoop(e1, m, record);
    assert if o.id in Gone(m) then Inv(e2) else Working(e2, m.incoming) by {
      AfterMatchKeeps(e, o);
      AfterLoopWorks(e1, m, record);
    }
    assert o.id in e2.store <==> o.id !in Gone(m);
    assert TradeLoop(e1, m.trades, record) == e2 by {
      LoopEffect(e, o, record);
    }
  }

  // ---------------------------------------------------------------- placing the order

  lemma {:induction false} RestKeepsBook(e: State, o: OrderData)
    requires Working(e, o) && o.otype == Limit && 0 < o.remaining <= o.original
    requires forall x | x in SideOf(e, Opposite(o.side)) :: !Crosses(o, x.price)
    ensures BookOk(Rest(e, o)) && o in SideOf(Rest(e, o), o.side)
    ensures forall x | x in SideOf(e, o.side) :: x in SideOf(Rest(e, o), o.side)
  {
    var s := SideOf(e, o.side);
    assert forall i | 0 <= i < |s| :: s[i] in s;
    InsertKeeps(o.side, s, o);
  }

  lemma {:induction false} RestRestores(e: State, o: OrderData)
    requires Working(e, o) && o.otype == Limit && 0 < o.remaining <= o.original
    requires forall x | x in SideOf(e, Opposite(o.side)) :: !Crosses(o, x.price)
    ensures Inv(Rest(e, o))
  {
    RestKeepsBook(e, o);
    RestKeepsFiled(e, Rest(e, o), o);
  }

  lemma {:induction false} RestKeepsFiled(e: State, e': State, o: OrderData)
    requires Filed(e, {o.id}) && o.id in e.store && e.store[o.id] == o && o.otype == Limit && o.remaining <= o.original
    requires e'.store == e.store && SideOf(e', Opposite(o.side)) == SideOf(e, Opposite(o.side))
    requires o in SideOf(e', o.side) && forall x | x in SideOf(e, o.side) :: x in SideOf(e', o.side)
    ensures Filed(e', {})
  {
  }

  lemma {:induction false} DropRestores(e: State, o: OrderData)
    requires Working(e, o)
    ensures Inv(Drop(e, o.id))
  {
  }

  lemma {:induction false} StillUncrossed(e: State, o: OrderData, record: bool)
    requires Working(e, o)
    ensures var m := MatchOf(e, o); var e2 := TradeLoop(AfterMatch(e, o), m.trades, record);
      && m.incoming.side == o.side && m.incoming.otype == o.otype && m.incoming.price == o.price
      && m.incoming.original == o.original && m.incoming.remaining <= o.remaining
      && SideOf(e2, Opposite(o.side)) == m.rest
      && (m.incoming.remaining > 0 ==> forall x | x in m.rest :: !Crosses(m.incoming, x.price))
  {
    LoopEffect(e, o, record);
    FillKeepsSide(o, SideOf(e, Opposite(o.side)), e.lastTradeId);
    FillConserves(o, SideOf(e, Opposite(o.side)), e.lastTradeId);
  }

  /** The state after the trade loop as the last part of a handler finds it: the order is
      gone because it is filled, or it is stored, off the book and crosses nothing. */
  predicate Placeable(e: State, o: OrderData) {
    && o.remaining <= o.original
    && if o.id in e.store then
         && Working(e, o)
         && (o.remaining > 0 ==> forall x | x in SideOf(e, Opposite(o.side)) :: !Crosses(o, x.price))
       else Inv(e) && o.remaining == 0
  }

  lemma {:induction false} LoopPlaceable(e: State, o: OrderData, record: bool)
    requires Working(e, o) && o.remaining <= o.original
    ensures var m := MatchOf(e, o);
      && Placeable(TradeLoop(AfterMatch(e, o), m.trades, record), m.incoming)
      && m.incoming.id == o.id && m.incoming.otype == o.otype && m.incoming.side == o.side
  {
    AfterLoopKeeps(e, o, record);
    StillUncrossed(e, o, record);
  }

  /** A new order ends on the book or forgotten. */
  lemma {:induction false} PlaceNewKeeps(e: State, o: OrderData)
    requires Placeable(e, o) && (o.id in e.store && o.otype == Limit ==> o.remaining > 0)
    ensures Inv(PlaceNew(e, o))
    ensures PlaceNew(e, o) == if o.otype == Limit && o.remaining > 0 then Rest(e, o) else Drop(e, o.id)
  {
    if o.id !in e.store {
      NothingToDrop(e, o.id);
    } else if o.otype == Limit {
      RestRestores(e, o);
    } else {
      DropRestores(e, o);
    }
  }

  /** A modified order ends on the book or forgotten. */
  lemma {:induction false} PlaceModifiedKeeps(e: State, o: OrderData)
    requires Placeable(e, o) && o.otype == Limit
    ensures Inv(PlaceModified(e, o))
    ensures PlaceModified(e, o) == if o.remaining > 0 then Rest(e, o) else Drop(e, o.id)
  {
    if o.id !in e.store {
      NothingToDrop(e, o.id);
    } else if o.remaining > 0 {
      RestRestores(e, o);
    } else {
      DropRestores(e, o);
    }
  }

  lemma {:induction false} NothingToDrop(e: State, id: OrderId)
    requires Inv(e) && id !in e.store
    ensures Drop(e, id) == e
  {
    assert id !in e.rows.Keys;
    assert e.store - {id} == e.store && e.rows - {id} == e.rows;
  }

  // ---------------------------------------------------------------- one command

  /** What the source's callers guarantee: order ids are never reused and a new order has
      not been filled yet. */
  predicate Admissible(e: State, c: Command) {
    c.Submit? ==> c.order.id !in e.store && c.order.remaining == c.order.original && c.order.status == OrderStatus.New
  }

  lemma {:induction false} AcceptWorks(e: State, o: OrderData)
    requires Inv(e) && Admissible(e, Submit(o))
    ensures Working(Accept(e, o), o)
  {
    assert o.id !in e.rows.Keys;
    forall x | x in e.bids || x in e.asks ensures x.id != o.id {
    }
  }

  lemma {:induction false} TakeOffKeeps(e: State, id: OrderId)
    requires Inv(e)
    ensures var e1 := TakeOff(e, id);
      && SideOk(Buy, e1.bids) && SideOk(Sell, e1.asks)
      && (forall x :: x in e1.bids <==> x in e.bids && x.id != id)
      && (forall x :: x in e1.asks <==> x in e.asks && x.id != id)
  {
    RemoveKeeps(Buy, e.bids, id);
    RemoveKeepsMembers(e.bids, id);
    RemoveKeeps(Sell, e.asks, id);
    RemoveKeepsMembers(e.asks, id);
    if HasId(e.bids, id) {
      var i :| 0 <= i < |e.bids| && e.bids[i].id == id;
      assert e.bids[i] in e.bids;
      forall y | y in e.asks ensures y.id != id {
        SidesShareNoId(e, e.bids[i], y);
      }
    } else {
      RemoveMissing(e.bids, id);
    }
  }

  lemma {:induction false} ReplaceWorks(e: State, o: OrderData)
    requires Inv(e) && o.id in e.store
    ensures Working(Reprice(e, o), o)
  {
    TakeOffKeeps(e, o.id);
    var e1 := Reprice(e, o);
    forall id | id in e1.store && id != o.id
      ensures e1.store[id].remaining > 0 ==> e1.store[id] in SideOf(e1, e1.store[id].side)
    {
    }
  }

  /** An order with something to fill that has no trades keeps all of it. */
  lemma {:induction false} PositiveStays(e: State, o: OrderData)
    requires o.remaining > 0 && MatchOf(e, o).trades == []
    ensures MatchOf(e, o).incoming.remaining == o.remaining
  {
    FillConserves(o, SideOf(e, Opposite(o.side)), e.lastTradeId);
  }

  /** An accepted order that is still stored after its trades has something left. */
  lemma {:induction false} NewPlaceable(e: State, o: OrderData)
    requires Working(e, o) && 0 < o.remaining <= o.original
    ensures var m := MatchOf(e, o); var e2 := TradeLoop(AfterMatch(e, o), m.trades, true);
      Placeable(e2, m.incoming) && (m.incoming.id in e2.store ==> m.incoming.remaining > 0)
  {
    LoopPlaceable(e, o, true);
    AfterLoopKeeps(e, o, true);
    if MatchOf(e, o).trades == [] {
      PositiveStays(e, o);
    }
  }

  lemma {:induction false} NewKeeps(e: State, o: OrderData)
    requires Inv(e) && Admissible(e, Submit(o))
    ensures Inv(NewOrder(e, o))
  {
    if PreCheck(o, SideOf(e, Opposite(o.side))) {
      AcceptWorks(e, o);
      var e1 := Accept(e, o);
      NewPlaceable(e1, o);
      PlaceNewKeeps(TradeLoop(AfterMatch(e1, o), MatchOf(e1, o).trades, true), MatchOf(e1, o).incoming);
    }
  }

  /** An order leaves the book, the table and the store. */
  lemma {:induction false} ForgetsCleanly(e: State, e2: State, id: OrderId)
    requires Inv(e) && SideOk(Buy, e2.bids) && SideOk(Sell, e2.asks)
    requires forall x :: x in e2.bids <==> x in e.bids && x.id != id
    requires forall x :: x in e2.asks <==> x in e.asks && x.id != id
    requires e2.store == e.store - {id} && e2.rows == e.rows - {id}
    ensures Inv(e2)
  {
  }

  lemma {:induction false} CancelKeeps(e: State, id: OrderId)
    requires Inv(e)
    ensures Inv(CancelOrder(e, id))
  {
    if id in e.store && (HasId(e.bids, id) || HasId(e.asks, id)) {
      TakeOffKeeps(e, id);
      ForgetsCleanly(e, CancelOrder(e, id), id);
    }
  }

  lemma {:induction false} ModifyKeeps(e: State, id: OrderId, price: Price, quantity: Quantity)
    requires Inv(e)
    ensures Inv(ModifyOrder(e, id, price, quantity))
  {
    if id in e.store {
      var o := Replaced(e.store[id], price, quantity);
      ReplaceWorks(e, o);
      var e1 := Reprice(e, o);
      LoopPlaceable(e1, o, false);
      PlaceModifiedKeeps(TradeLoop(AfterMatch(e1, o), MatchOf(e1, o).trades, false), MatchOf(e1, o).incoming);
    }
  }

  lemma {:induction false} StepKeeps(e: State, c: Command)
    requires Inv(e) && Admissible(e, c)
    ensures Inv(Step(e, c))
  {
    match c
    case Submit(o) => NewKeeps(e, o);
    case Cancel(id) => CancelKeeps(e, id);
    case Modify(id, price, quantity) => ModifyKeeps(e, id, price, quantity);
  }
}
