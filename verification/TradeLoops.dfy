/** The net effect of the trade loop that runs after a match.

    The match is over before the loop starts, so an incoming order that was filled
    completely leaves the store with the first trade and every later trade fails its
    lookup. `Gone` and `Reports` say exactly what that leaves behind. */
module TradeLoops {
  import opened Orders
  import opened Matching
  import opened PriceTime
  import opened Engine
  import opened Invariants

  function Ids(s: seq<OrderData>): set<OrderId> {
    set x | x in s :: x.id
  }

  /** The orders that leave the store. */
  function Gone(m: Outcome): set<OrderId> {
    if m.incoming.remaining > 0 then Ids(m.consumed)
    else if m.trades == [] then {}
    else {m.incoming.id} + (if m.consumed == [] then {} else {m.consumed[0].id})
  }

  /** The resting order of trade i, in its final state. */
  function Counterparty(m: Outcome, i: nat): OrderData
    requires i < |m.trades| <= |m.consumed| + |m.rest|
  {
    (m.consumed + m.rest)[i]
  }

  function Report(t: Trade, inc: OrderData, other: OrderData): Event {
    if inc.side == Buy then Traded(t, inc, other) else Traded(t, other, inc)
  }

  function Reports(ts: seq<Trade>, inc: OrderData, others: seq<OrderData>): seq<Event>
    requires |ts| <= |others|
  {
    seq(|ts|, i requires 0 <= i < |ts| => Report(ts[i], inc, others[i]))
  }

  /** How many of the trades pass the lookup. */
  function Handled(m: Outcome): nat {
    if m.incoming.remaining > 0 || |m.trades| == 0 then |m.trades| else 1
  }

  /** Row updates of the handled trades, before the removals. */
  function RowsAfter(rows: map<OrderId, Row>, m: Outcome): map<OrderId, Row>
    requires |m.trades| <= |m.consumed| + |m.rest|
  {
    if m.trades == [] then rows
    else if m.incoming.remaining > 0 then UpdateRow(rows, m.incoming)
    else UpdateRow(UpdateRow(rows, m.incoming), Counterparty(m, 0))
  }

  function AfterLoop(e: State, m: Outcome, record: bool): State
    requires |m.trades| <= |m.consumed| + |m.rest|
  {
    e.(store := e.store - Gone(m),
       rows := RowsAfter(e.rows, m) - Gone(m),
       recorded := e.recorded + (if record then m.trades else []),
       events := e.events + Reports(m.trades[..Handled(m)], m.incoming, m.consumed + m.rest))
  }

  /** Trade i is between the incoming order and others[i], whatever their remaining quantities. */
  predicate Pairs(inc: OrderData, others: seq<OrderData>, ts: seq<Trade>) {
    && |ts| <= |others|
    && forall i | 0 <= i < |ts| ::
         && (inc.side == Buy ==> ts[i].buyId == inc.id && ts[i].sellId == others[i].id)
         && (inc.side == Sell ==> ts[i].sellId == inc.id && ts[i].buyId == others[i].id)
  }

  function Recorded(e: State, ts: seq<Trade>, record: bool): State {
    if record then e.(recorded := e.recorded + ts) else e
  }

  /** Once the incoming order has left the store, trades are recorded and nothing else. */
  lemma {:induction false} LoopSkips(e: State, inc: OrderData, others: seq<OrderData>, ts: seq<Trade>, record: bool)
    requires Pairs(inc, others, ts) && inc.id !in e.store
    ensures TradeLoop(e, ts, record) == Recorded(e, ts, record)
    decreases |ts|
  {
    if ts == [] {
      assert e.recorded + [] == e.recorded;
    } else {
      assert ts[0].buyId == inc.id || ts[0].sellId == inc.id;
      assert others[1..][..] == others[1..];
      forall i | 0 <= i < |ts| - 1
        ensures ts[1..][i] == ts[i + 1] && others[1..][i] == others[i + 1] {
      }
      LoopSkips(Recorded(e, [ts[0]], record), inc, others[1..], ts[1..], record);
      assert e.recorded + [ts[0]] + ts[1..] == e.recorded + ts;
    }
  }

  /** One pass for a trade whose orders are both stored. */
  lemma {:induction false} SettleBoth(e: State, t: Trade, inc: OrderData, other: OrderData)
    requires inc.id != other.id
    requires inc.id in e.store && e.store[inc.id] == inc
    requires other.id in e.store && e.store[other.id] == other
    requires Pairs(inc, [other], [t])
    ensures var gone := (if inc.remaining == 0 then {inc.id} else {}) + (if other.remaining == 0 then {other.id} else {});
      SettleTrade(e, t) == e.(store := e.store - gone,
                              rows := UpdateRow(UpdateRow(e.rows, inc), other) - gone,
                              events := e.events + [Report(t, inc, other)])
  {
    assert [t][0] == t && [other][0] == other;
    assert UpdateRow(UpdateRow(e.rows, inc), other) == UpdateRow(UpdateRow(e.rows, other), inc);
  }

  /** The state once the filled counterparties of all trades are removed. */
  function Removed(e: State, inc: OrderData, others: seq<OrderData>, ts: seq<Trade>, record: bool): State
    requires |ts| == |others|
  {
    Recorded(e, ts, record).(
      store := e.store - Ids(others),
      rows := (if ts == [] then e.rows else UpdateRow(e.rows, inc)) - Ids(others),
      events := e.events + Reports(ts, inc, others))
  }

  predicate Removable(e: State, inc: OrderData, others: seq<OrderData>) {
    && inc.remaining > 0 && inc.id in e.store && e.store[inc.id] == inc
    && DistinctIds(others)
    && forall x | x in others :: x.id != inc.id && x.id in e.store && e.store[x.id] == x && x.remaining == 0
  }

  lemma {:induction false} RemovableTail(e: State, e2: State, inc: OrderData, others: seq<OrderData>)
    requires others != [] && Removable(e, inc, others)
    requires e2.store == e.store - {others[0].id}
    ensures Removable(e2, inc, others[1..])
  {
    var tail := others[1..];
    forall x | x in tail ensures x.id != others[0].id && x in others {
      var i :| 0 <= i < |tail| && tail[i] == x;
      assert others[i + 1] == x;
    }
  }

  lemma {:induction false} IdsOfAll(others: seq<OrderData>)
    requires others != []
    ensures Ids(others) == {others[0].id} + Ids(others[1..])
  {
    assert others == [others[0]] + others[1..];
  }

  lemma {:induction false} RemovedRows(rows: map<OrderId, Row>, inc: OrderData, others: seq<OrderData>, more: bool)
    requires others != [] && inc.id !in Ids(others)
    ensures var o, tail := others[0], others[1..];
      var rows1 := UpdateRow(UpdateRow(rows, inc), o) - {o.id};
      (if more then UpdateRow(rows1, inc) else rows1) - Ids(tail) == UpdateRow(rows, inc) - Ids(others)
  {
    IdsOfAll(others);
  }

  lemma {:induction false} RemovedEvents(events: seq<Event>, inc: OrderData, others: seq<OrderData>, ts: seq<Trade>)
    requires |ts| == |others| && ts != []
    ensures events + [Report(ts[0], inc, others[0])] + Reports(ts[1..], inc, others[1..]) == events + Reports(ts, inc, others)
  {
    assert Reports(ts, inc, others) == [Report(ts[0], inc, others[0])] + Reports(ts[1..], inc, others[1..]);
  }

  lemma {:induction false} RemovedTail(e: State, e2: State, inc: OrderData, others: seq<OrderData>, ts: seq<Trade>, record: bool)
    requires |ts| == |others| && ts != [] && inc.id !in Ids(others)
    requires var o := others[0];
      e2 == Recorded(e, [ts[0]], record).(
        store := e.store - {o.id},
        rows := UpdateRow(UpdateRow(e.rows, inc), o) - {o.id},
        events := e.events + [Report(ts[0], inc, o)])
    ensures Removed(e2, inc, others[1..], ts[1..], record) == Removed(e, inc, others, ts, record)
  {
    IdsOfAll(others);
    RemovedRows(e.rows, inc, others, ts[1..] != []);
    RemovedEvents(e.events, inc, others, ts);
    assert e.recorded + [ts[0]] + ts[1..] == e.recorded + ts;
    assert e2.store - Ids(others[1..]) == e.store - Ids(others);
  }

  lemma {:induction false} RemovedOne(e: State, inc: OrderData, others: seq<OrderData>, ts: seq<Trade>, record: bool)
    requires |ts| == |others| && ts != [] && Pairs(inc, others, ts) && Removable(e, inc, others)
    ensures var e2 := SettleTrade(Recorded(e, [ts[0]], record), ts[0]);
      && Removed(e2, inc, others[1..], ts[1..], record) == Removed(e, inc, others, ts, record)
      && Removable(e2, inc, others[1..])
  {
    var o := others[0];
    assert o in others;
    var e1 := Recorded(e, [ts[0]], record);
    assert Pairs(inc, [o], [ts[0]]);
    SettleBoth(e1, ts[0], inc, o);
    RemovableTail(e, SettleTrade(e1, ts[0]), inc, others);
    RemovedTail(e, SettleTrade(e1, ts[0]), inc, others, ts, record);
  }

  /** While the incoming order stays in the store every filled counterparty is removed. */
  lemma {:induction false} LoopRemoves(e: State, inc: OrderData, others: seq<OrderData>, ts: seq<Trade>, record: bool)
    requires |ts| == |others| && Pairs(inc, others, ts) && Removable(e, inc, others)
    ensures TradeLoop(e, ts, record) == Removed(e, inc, others, ts, record)
    decreases |ts|
  {
    if ts == [] {
      assert e.recorded + [] == e.recorded;
      assert e.store - Ids(others) == e.store && e.rows - Ids(others) == e.rows;
      assert e.events + Reports(ts, inc, others) == e.events;
    } else {
      RemovedOne(e, inc, others, ts, record);
      forall i | 0 <= i < |ts| - 1
        ensures ts[1..][i] == ts[i + 1] && others[1..][i] == others[i + 1] {
      }
      LoopRemoves(SettleTrade(Recorded(e, [ts[0]], record), ts[0]), inc, others[1..], ts[1..], record);
    }
  }

  // ---------------------------------------------------------------- after a match

  /** Position by position, the orders a match has touched are those of the old side. */
  lemma {:induction false} SameIds(o: OrderData, s: seq<OrderData>, lastId: TradeId)
    ensures var m := Match(o, s, lastId);
      |m.consumed| + |m.rest| == |s| && forall i | 0 <= i < |s| :: (m.consumed + m.rest)[i].id == s[i].id
  {
    FillTakesPrefix(o, s, lastId);
  }

  /** The trades of a match pair the incoming order with the consumed orders and then,
      possibly, with the reduced head of what is left. */
  lemma {:induction false} MatchPairs(o: OrderData, s: seq<OrderData>, lastId: TradeId)
    ensures var m := Match(o, s, lastId);
      && |m.consumed| <= |m.trades| <= |m.consumed| + |m.rest|
      && Pairs(m.incoming, m.consumed + m.rest, m.trades)
      && (m.incoming.remaining > 0 ==> |m.trades| == |m.consumed|)
  {
    SameIds(o, s, lastId);
    FillTradesInOrder(o, s, lastId);
    FillConserves(o, s, lastId);
    OnlyLastReduces(o, s, lastId);
  }

  lemma {:induction false} OnlyLastReduces(o: OrderData, s: seq<OrderData>, lastId: TradeId)
    ensures var m := Match(o, s, lastId);
      |m.consumed| <= |m.trades| <= |s| && (m.incoming.remaining > 0 ==> |m.trades| == |m.consumed|)
  {
    FillTakesPrefix(o, s, lastId);
  }

  /** While an order is being worked on, the other side is of other, stored orders. */
  lemma {:induction false} SideApart(e: State, o: OrderData)
    requires Working(e, o)
    ensures var s := SideOf(e, Opposite(o.side));
      DistinctIds(s) && (forall x | x in s :: x.id != o.id) && (forall x | x in s :: x.id in e.store)
  {
  }

  lemma {:induction false} TouchedStored(e: State, o: OrderData, i: nat)
    requires var s := SideOf(e, Opposite(o.side));
      DistinctIds(s) && (forall x | x in s :: x.id != o.id) && (forall x | x in s :: x.id in e.store)
    requires i < |SideOf(e, Opposite(o.side))|
    ensures var m := MatchOf(e, o); var t := m.consumed + m.rest; var e1 := AfterMatch(e, o);
      i < |t| && t[i].id != o.id && t[i].id in e1.store && e1.store[t[i].id] == t[i]
  {
    var s, m := SideOf(e, Opposite(o.side)), MatchOf(e, o);
    var t := m.consumed + m.rest;
    SameIds(o, s, e.lastTradeId);
    assert s[i] in s;
    StoreAfterMatch(e, o, s[i].id);
    assert t[i] in m.consumed || t[i] in m.rest;
  }

  lemma {:induction false} TouchedHeld(e: State, o: OrderData, i: nat)
    requires Working(e, o)
    requires 1 <= i <= |SideOf(e, Opposite(o.side))|
    ensures var t := Touched(MatchOf(e, o)); var e1 := AfterMatch(e, o);
      i < |t| && t[i].id != o.id && t[i].id in e1.store && e1.store[t[i].id] == t[i]
  {
    SideApart(e, o);
    TouchedStored(e, o, i - 1);
    TouchedFrom(MatchOf(e, o), i - 1);
  }

  lemma {:induction false} TouchedFrom(m: Outcome, i: nat)
    requires i < |m.consumed| + |m.rest|
    ensures i + 1 < |Touched(m)| && Touched(m)[i + 1] == (m.consumed + m.rest)[i]
  {
  }

  /** The store right after a match holds every touched order in its final state. */
  lemma {:induction false} AfterMatchHolds(e: State, o: OrderData)
    requires Working(e, o)
    ensures var m := MatchOf(e, o); var e1 := AfterMatch(e, o);
      && m.incoming.id == o.id && o.id in e1.store && e1.store[o.id] == m.incoming
      && (forall x | x in m.consumed + m.rest :: x.id != o.id && x.id in e1.store && e1.store[x.id] == x)
      && DistinctIds(m.consumed + m.rest)
  {
    SideApart(e, o);
    var s, m := SideOf(e, Opposite(o.side)), MatchOf(e, o);
    SameIds(o, s, e.lastTradeId);
    StoreAfterMatch(e, o, o.id);
    FillConserves(o, s, e.lastTradeId);
    AllTouchedStored(e, o);
  }

  lemma {:induction false} AllTouchedStored(e: State, o: OrderData)
    requires var s := SideOf(e, Opposite(o.side));
      DistinctIds(s) && (forall x | x in s :: x.id != o.id) && (forall x | x in s :: x.id in e.store)
    ensures var m := MatchOf(e, o); var e1 := AfterMatch(e, o);
      forall x | x in m.consumed + m.rest :: x.id != o.id && x.id in e1.store && e1.store[x.id] == x
  {
    var m := MatchOf(e, o);
    var t := m.consumed + m.rest;
    SameIds(o, SideOf(e, Opposite(o.side)), e.lastTradeId);
    forall x | x in t ensures x.id != o.id && x.id in AfterMatch(e, o).store && AfterMatch(e, o).store[x.id] == x {
      var i :| 0 <= i < |t| && t[i] == x;
      TouchedStored(e, o, i);
    }
  }

  /** Consumed orders have nothing left, orders still resting have something left. */
  lemma {:induction false} ConsumedAndRest(o: OrderData, s: seq<OrderData>, lastId: TradeId)
    requires SideOk(Opposite(o.side), s)
    ensures var m := Match(o, s, lastId);
      && (forall x | x in m.consumed :: x.remaining == 0)
      && (forall x | x in m.rest :: x.remaining > 0)
  {
    FillTakesPrefix(o, s, lastId);
    FillKeepsSide(o, s, lastId);
    assert forall x | x in Match(o, s, lastId).rest :: MayRest(Opposite(o.side), x);
  }

  /** The net effect of the trade loop, in closed form. */
  lemma {:induction false} LoopEffect(e: State, o: OrderData, record: bool)
    requires Working(e, o)
    ensures var m := MatchOf(e, o);
      && |m.trades| <= |m.consumed| + |m.rest|
      && TradeLoop(AfterMatch(e, o), m.trades, record) == AfterLoop(AfterMatch(e, o), m, record)
  {
    var m, e1 := MatchOf(e, o), AfterMatch(e, o);
    MatchPairs(o, SideOf(e, Opposite(o.side)), e.lastTradeId);
    AfterMatchHolds(e, o);
    ConsumedAndRest(o, SideOf(e, Opposite(o.side)), e.lastTradeId);
    if m.incoming.remaining > 0 {
      forall i, j | 0 <= i < j < |m.consumed| ensures m.consumed[i].id != m.consumed[j].id {
        assert (m.consumed + m.rest)[i].id != (m.consumed + m.rest)[j].id;
      }
      LoopEffectOpen(e1, m, record);
    } else {
      LoopEffectFilled(e1, m, record);
    }
  }

  lemma {:induction false} LoopEffectOpen(e: State, m: Outcome, record: bool)
    requires |m.trades| == |m.consumed| && Pairs(m.incoming, m.consumed + m.rest, m.trades)
    requires Removable(e, m.incoming, m.consumed)
    ensures TradeLoop(e, m.trades, record) == AfterLoop(e, m, record)
  {
    LoopRemoves(e, m.incoming, m.consumed, m.trades, record);
    assert m.trades[..Handled(m)] == m.trades;
    assert Reports(m.trades, m.incoming, m.consumed) == Reports(m.trades, m.incoming, m.consumed + m.rest);
    assert e.recorded + [] == e.recorded;
  }

  lemma {:induction false} LoopEffectFilled(e: State, m: Outcome, record: bool)
    requires m.incoming.remaining == 0 && |m.consumed| <= |m.trades| <= |m.consumed| + |m.rest|
    requires Pairs(m.incoming, m.consumed + m.rest, m.trades)
    requires m.incoming.id in e.store && e.store[m.incoming.id] == m.incoming
    requires forall x | x in m.consumed + m.rest :: x.id != m.incoming.id && x.id in e.store && e.store[x.id] == x
    requires forall x | x in m.consumed :: x.remaining == 0
    requires forall x | x in m.rest :: x.remaining > 0
    ensures TradeLoop(e, m.trades, record) == AfterLoop(e, m, record)
  {
    var inc, others, ts := m.incoming, m.consumed + m.rest, m.trades;
    assert e.recorded + [] == e.recorded;
    if ts == [] {
      assert e.store - {} == e.store && e.rows - {} == e.rows;
      assert e.events + [] == e.events;
    } else {
      var r := others[0];
      assert r in others;
      var e1 := Recorded(e, [ts[0]], record);
      assert Pairs(inc, [r], [ts[0]]);
      SettleBoth(e1, ts[0], inc, r);
      var e2 := SettleTrade(e1, ts[0]);
      assert Gone(m) == (if inc.remaining == 0 then {inc.id} else {}) + (if r.remaining == 0 then {r.id} else {});
      forall i | 0 <= i < |ts| - 1
        ensures ts[1..][i] == ts[i + 1] && others[1..][i] == others[i + 1] {
      }
      LoopSkips(e2, inc, others[1..], ts[1..], record);
      assert e.recorded + [ts[0]] + ts[1..] == e.recorded + ts;
      assert ts[..1] == [ts[0]];
      assert Reports(ts[..1], inc, others) == [Report(ts[0], inc, r)];
    }
  }
}
