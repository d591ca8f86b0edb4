/** What every command keeps: the book is uncrossed and in price-time order, it shows the
    store's own orders, and a stored order rests exactly while it has quantity left. */
module Invariants {
  import opened Orders
  import opened Matching
  import opened PriceTime
  import opened Engine

  predicate Uncrossed(bids: seq<OrderData>, asks: seq<OrderData>) {
    forall b, a | b in bids && a in asks :: b.price < a.price
  }

  /** Every entry of the side is the store's order of that id. */
  predicate Owned(store: map<OrderId, OrderData>, s: seq<OrderData>) {
    forall x | x in s :: x.id in store && store[x.id] == x
  }

  /** Stored orders are Limit orders filed under their id, and rest on their own side as
      long as something remains. `busy` is an order that is being worked on. */
  predicate Filed(e: State, busy: set<OrderId>) {
    forall id | id in e.store ::
      && e.store[id].id == id
      && (id !in busy ==>
            && e.store[id].otype == Limit
            && e.store[id].remaining <= e.store[id].original
            && (e.store[id].remaining > 0 ==> e.store[id] in SideOf(e, e.store[id].side)))
  }

  predicate BookOk(e: State) {
    && SideOk(Buy, e.bids) && SideOk(Sell, e.asks)
    && Uncrossed(e.bids, e.asks)
    && Owned(e.store, e.bids) && Owned(e.store, e.asks)
  }

  predicate Inv(e: State) {
    && BookOk(e)
    && Filed(e, {})
    && e.rows.Keys == e.store.Keys
  }

  /** The invariant while one order, `o`, is in the store but not on the book. */
  predicate Working(e: State, o: OrderData) {
    && BookOk(e)
    && Filed(e, {o.id})
    && e.rows.Keys == e.store.Keys
    && o.id in e.store && e.store[o.id] == o
    && OffBook(e, o.id)
  }

  predicate OffBook(e: State, id: OrderId) {
    && (forall x | x in e.bids :: x.id != id)
    && (forall x | x in e.asks :: x.id != id)
  }

  /** A stored order is on the book exactly when something remains of it. */
  lemma {:induction false} OnBookIffRemaining(e: State, id: OrderId)
    requires Inv(e) && id in e.store
    ensures e.store[id].remaining > 0 <==> HasId(e.bids, id) || HasId(e.asks, id)
    ensures e.store[id].remaining > 0 <==> e.store[id] in SideOf(e, e.store[id].side)
    ensures !(HasId(e.bids, id) && HasId(e.asks, id))
  {
    var o := e.store[id];
    if o.remaining > 0 {
      var i :| 0 <= i < |SideOf(e, o.side)| && SideOf(e, o.side)[i] == o;
    }
    if HasId(e.bids, id) {
      var i :| 0 <= i < |e.bids| && e.bids[i].id == id;
      assert e.bids[i] in e.bids;
    }
    if HasId(e.asks, id) {
      var i :| 0 <= i < |e.asks| && e.asks[i].id == id;
      assert e.asks[i] in e.asks;
    }
  }

  // ---------------------------------------------------------------- lookups after a match

  lemma {:induction false} LookupHit(s: seq<OrderData>, i: nat, otherwise: OrderData)
    requires DistinctIds(s) && i < |s|
    ensures Lookup(s, s[i].id, otherwise) == s[i]
  {
    if i > 0 {
      assert forall j | 0 <= j < |s| - 1 :: s[1..][j] == s[j + 1];
      LookupHit(s[1..], i - 1, otherwise);
    }
  }

  lemma {:induction false} LookupMiss(s: seq<OrderData>, id: OrderId, otherwise: OrderData)
    requires forall x | x in s :: x.id != id
    ensures Lookup(s, id, otherwise) == otherwise
  {
    if s != [] {
      assert s[0] in s;
      LookupMiss(s[1..], id, otherwise);
    }
  }

  /** The touched orders are the incoming order and the old side, position by position. */
  lemma {:induction false} TouchedAt(o: OrderData, s: seq<OrderData>, lastId: TradeId, i: nat)
    requires i < |s|
    ensures var t := Touched(Match(o, s, lastId)); |t| == 1 + |s| && SameOrder(t[1 + i], s[i])
  {
    FillLeavesSuffix(o, s, lastId);
    FillTakesPrefix(o, s, lastId);
    var m := Match(o, s, lastId);
    if i >= |m.consumed| {
      assert Touched(m)[1 + i] == m.rest[i - |m.consumed|];
    } else {
      assert Touched(m)[1 + i] == m.consumed[i];
    }
  }

  lemma {:induction false} TouchedDistinct(o: OrderData, s: seq<OrderData>, lastId: TradeId)
    requires DistinctIds(s) && forall x | x in s :: x.id != o.id
    ensures var m := Match(o, s, lastId); m.incoming.id == o.id && DistinctIds(Touched(m)) && |Touched(m)| == 1 + |s|
  {
    var m := Match(o, s, lastId);
    var t := Touched(m);
    FillConserves(o, s, lastId);
    FillLeavesSuffix(o, s, lastId);
    assert t[0] == m.incoming;
    forall i, j | 0 <= i < j < |t| ensures t[i].id != t[j].id {
      TouchedAt(o, s, lastId, j - 1);
      assert s[j - 1] in s;
      if i > 0 {
        TouchedAt(o, s, lastId, i - 1);
      }
    }
  }

  /** What the store holds for each id once a match is over. */
  lemma {:induction false} StoreAfterMatch(e: State, o: OrderData, id: OrderId)
    requires DistinctIds(SideOf(e, Opposite(o.side)))
    requires forall x | x in SideOf(e, Opposite(o.side)) :: x.id != o.id
    requires id in e.store
    ensures var m := MatchOf(e, o); var store := AfterMatch(e, o).store;
      && id in store
      && (id == o.id ==> store[id] == m.incoming)
      && (forall x | x in m.consumed :: x.id == id ==> store[id] == x)
      && (forall x | x in m.rest :: x.id == id ==> store[id] == x)
      && (id != o.id && (forall x | x in SideOf(e, Opposite(o.side)) :: x.id != id) ==> store[id] == e.store[id])
  {
    var s := SideOf(e, Opposite(o.side));
    var m := MatchOf(e, o);
    var t := Touched(m);
    TouchedDistinct(o, s, e.lastTradeId);
    if i :| 0 <= i < |t| && t[i].id == id {
      LookupHit(t, i, e.store[id]);
      if i > 0 {
        TouchedAt(o, s, e.lastTradeId, i - 1);
        assert s[i - 1] in s;
      }
      forall x | x in t && x.id == id ensures x == t[i] {
        var j :| 0 <= j < |t| && t[j] == x;
      }
    } else {
      LookupMiss(t, id, e.store[id]);
      assert t[0] == m.incoming;
    }
  }
}
