/** What a participant is promised about one command: self-match prevention, price
    protection and conservation of quantity. */
module Guarantees {
  import opened Orders
  import opened Matching
  import opened PriceTime
  import opened Engine
  import opened Invariants
  import opened Reachable

  // ---------------------------------------------------------------- self-match prevention

  /** The early-breaking scan finds exactly the resting orders of the same sender that the
      order could reach. */
  lemma {:induction false} ScanIsExact(o: OrderData, s: seq<OrderData>)
    requires Sorted(Opposite(o.side), s)
    ensures ScanSelfMatch(o, s) <==> exists x :: x in s && Crosses(o, x.price) && x.sender == o.sender
  {
    if s != [] {
      if !Crosses(o, s[0].price) {
        forall x | x in s ensures !Crosses(o, x.price) {
          var i :| 0 <= i < |s| && s[i] == x;
        }
      } else {
        ScanIsExact(o, s[1..]);
        assert s == [s[0]] + s[1..];
        assert s[0] in s;
      }
    }
  }

  /** No trade of an accepted new order has the same sender on both sides. */
  lemma {:induction false} NoSelfTrade(e: State, o: OrderData, t: Trade)
    requires Inv(e) && Admissible(e, Submit(o)) && PreCheck(o, SideOf(e, Opposite(o.side)))
    requires t in MatchOf(Accept(e, o), o).trades
    ensures var store := Accept(e, o).store;
      t.buyId in store && t.sellId in store && store[t.buyId].sender != store[t.sellId].sender
  {
    var s := SideOf(e, Opposite(o.side));
    FillTradesInOrder(o, s, e.lastTradeId);
    ScanIsExact(o, s);
    var ts := MatchOf(Accept(e, o), o).trades;
    var i :| 0 <= i < |ts| && ts[i] == t;
    assert s[i] in s;
  }

  // ---------------------------------------------------------------- price protection

  /** Every trade of an accepted new limit order lies between the top of the opposite side
      before it arrived and its limit, so within 10% of a positive top; prices only move
      away from that top. */
  lemma {:induction false} PriceProtection(e: State, o: OrderData)
    requires Inv(e) && o.otype == Limit && PreCheck(o, SideOf(e, Opposite(o.side)))
    ensures var top := TopOfBook(SideOf(e, Opposite(o.side))); var ts := MatchOf(Accept(e, o), o).trades;
      && (forall i | 0 <= i < |ts| ::
            && (if o.side == Buy then top <= ts[i].price <= o.price else o.price <= ts[i].price <= top)
            && (top > 0.0 ==> 0.9 * top <= ts[i].price <= 1.1 * top))
      && (forall i, j | 0 <= i < j < |ts| :: if o.side == Buy then ts[i].price <= ts[j].price else ts[i].price >= ts[j].price)
  {
    var s := SideOf(e, Opposite(o.side));
    TradePrices(o, s, e.lastTradeId);
    var top, ts := TopOfBook(s), MatchOf(Accept(e, o), o).trades;
    assert ts == Fill(o, s, e.lastTradeId).trades;
    forall i | 0 <= i < |ts|
      ensures if o.side == Buy then top <= ts[i].price <= o.price else o.price <= ts[i].price <= top
      ensures top > 0.0 ==> 0.9 * top <= ts[i].price <= 1.1 * top
    {
      assert Crosses(o, ts[i].price) && !Better(Opposite(o.side), ts[i].price, top);
      if top > 0.0 {
        WithinTenPercent(o.price, top);
      }
    }
  }

  lemma {:induction false} WithinTenPercent(p: Price, top: Price)
    requires top > 0.0 && !Deviates(p, top)
    ensures 0.9 * top <= p <= 1.1 * top
  {
    var d := if p >= top then p - top else top - p;
    assert d == (d / top) * top;
    assert (d / top) * top <= 0.10 * top;
  }

  // ---------------------------------------------------------------- conservation

  /** Quantity traded by order id. */
  function TradedBy(ts: seq<Trade>, id: OrderId): nat {
    if ts == [] then 0
    else (if ts[0].buyId == id || ts[0].sellId == id then ts[0].quantity else 0) + TradedBy(ts[1..], id)
  }

  lemma {:induction false} IncomingTradesAll(ts: seq<Trade>, id: OrderId)
    requires forall i | 0 <= i < |ts| :: ts[i].buyId == id || ts[i].sellId == id
    ensures TradedBy(ts, id) == TotalTraded(ts)
  {
    if ts != [] {
      assert forall i | 0 <= i < |ts| - 1 :: ts[1..][i] == ts[i + 1];
      IncomingTradesAll(ts[1..], id);
    }
  }

  lemma {:induction false} TradesNone(ts: seq<Trade>, id: OrderId)
    requires forall i | 0 <= i < |ts| :: ts[i].buyId != id && ts[i].sellId != id
    ensures TradedBy(ts, id) == 0
  {
    if ts != [] {
      assert forall i | 0 <= i < |ts| - 1 :: ts[1..][i] == ts[i + 1];
      TradesNone(ts[1..], id);
    }
  }

  lemma {:induction false} TradesOnce(ts: seq<Trade>, id: OrderId, k: nat)
    requires k < |ts| && (ts[k].buyId == id || ts[k].sellId == id)
    requires forall i | 0 <= i < |ts| && i != k :: ts[i].buyId != id && ts[i].sellId != id
    ensures TradedBy(ts, id) == ts[k].quantity
  {
    assert forall i | 0 <= i < |ts| - 1 :: ts[1..][i] == ts[i + 1];
    if k == 0 {
      TradesNone(ts[1..], id);
    } else {
      assert ts[0].buyId != id && ts[0].sellId != id;
      TradesOnce(ts[1..], id, k - 1);
    }
  }

  /** A match takes equal totals from the incoming order and from the opposite side, in
      positive trades, as much as the crossing orders allow. */
  lemma {:induction false} MatchConserves(e: State, o: OrderData)
    requires BookOk(e)
    ensures var s := SideOf(e, Opposite(o.side)); var m := MatchOf(e, o);
      && o.remaining - m.incoming.remaining == TotalTraded(m.trades)
      && TotalRemaining(s) - TotalRemaining(m.rest) == TotalTraded(m.trades)
      && TotalTraded(m.trades) == Min(o.remaining, Available(o, s))
      && (forall i | 0 <= i < |m.trades| :: m.trades[i].quantity > 0)
  {
    var s := SideOf(e, Opposite(o.side));
    FillConserves(o, s, e.lastTradeId);
    FillsAllItCan(o, s, e.lastTradeId);
    TradesArePositive(o, s, e.lastTradeId);
  }

  lemma {:induction false} IncomingConserves(e: State, o: OrderData)
    requires Working(e, o)
    ensures var m := MatchOf(e, o); var after := AfterMatch(e, o).store;
      && o.id in after && after[o.id].original == o.original
      && o.remaining == after[o.id].remaining + TradedBy(m.trades, o.id)
  {
    var s := SideOf(e, Opposite(o.side));
    TradeLoops.SideApart(e, o);
    StoreAfterMatch(e, o, o.id);
    FillTradesInOrder(o, s, e.lastTradeId);
    FillConserves(o, s, e.lastTradeId);
    IncomingTradesAll(MatchOf(e, o).trades, o.id);
  }

  lemma {:induction false} OtherConserves(e: State, o: OrderData, id: OrderId)
    requires Working(e, o) && id in e.store && id != o.id
    requires forall x | x in SideOf(e, Opposite(o.side)) :: x.id != id
    ensures id in AfterMatch(e, o).store && AfterMatch(e, o).store[id] == e.store[id]
    ensures TradedBy(MatchOf(e, o).trades, id) == 0
  {
    var s := SideOf(e, Opposite(o.side));
    TradeLoops.SideApart(e, o);
    StoreAfterMatch(e, o, id);
    FillTradesInOrder(o, s, e.lastTradeId);
    assert forall i | 0 <= i < |s| :: s[i] in s;
    TradesNone(MatchOf(e, o).trades, id);
  }

  /** What each order loses in a match is what it traded. */
  lemma {:induction false} EachOrderConserves(e: State, o: OrderData, id: OrderId)
    requires Working(e, o) && id in e.store
    ensures var m := MatchOf(e, o); var after := AfterMatch(e, o).store;
      && id in after && after[id].original == e.store[id].original
      && e.store[id].remaining == after[id].remaining + TradedBy(m.trades, id)
  {
    var s := SideOf(e, Opposite(o.side));
    if id == o.id {
      IncomingConserves(e, o);
    } else if k :| 0 <= k < |s| && s[k].id == id {
      assert s[k] in s;
      RestingOrderConserves(e, o, k);
    } else {
      assert forall x | x in s :: x.id != id;
      OtherConserves(e, o, id);
    }
  }

  /** The resting order at position k, before and after. */
  lemma {:induction false} TouchedLess(o: OrderData, s: seq<OrderData>, lastId: TradeId, k: nat)
    requires k < |s|
    ensures var m := Match(o, s, lastId);
      && k + 1 < |Touched(m)|
      && s[k].remaining == Touched(m)[k + 1].remaining + if k < |m.trades| then m.trades[k].quantity else 0
  {
    var m := Match(o, s, lastId);
    FillTakesPrefix(o, s, lastId);
    FillTradesInOrder(o, s, lastId);
    assert Touched(m)[k + 1] == (m.consumed + m.rest)[k];
  }

  lemma {:induction false} TradedByResting(o: OrderData, s: seq<OrderData>, lastId: TradeId, k: nat)
    requires k < |s| && DistinctIds(s) && s[k].id != o.id
    ensures var ts := Match(o, s, lastId).trades; TradedBy(ts, s[k].id) == if k < |ts| then ts[k].quantity else 0
  {
    var ts := Match(o, s, lastId).trades;
    FillTradesInOrder(o, s, lastId);
    if k < |ts| {
      TradesOnce(ts, s[k].id, k);
    } else {
      TradesNone(ts, s[k].id);
    }
  }

  lemma {:induction false} RestingOrderConserves(e: State, o: OrderData, k: nat)
    requires Working(e, o)
    requires k < |SideOf(e, Opposite(o.side))|
    ensures var s := SideOf(e, Opposite(o.side)); var m := MatchOf(e, o); var after := AfterMatch(e, o).store;
      && s[k].id in after && after[s[k].id].original == s[k].original
      && s[k].remaining == after[s[k].id].remaining + TradedBy(m.trades, s[k].id)
  {
    var s := SideOf(e, Opposite(o.side));
    assert s[k] in s;
    TradeLoops.TouchedHeld(e, o, k + 1);
    TouchedAt(o, s, e.lastTradeId, k);
    TouchedLess(o, s, e.lastTradeId, k);
    TradedByResting(o, s, e.lastTradeId, k);
  }
}
