/** What trade ids cannot change: a match, and a whole command, are the same under any other
    ids, up to the ids in their trades and reports. */
module Partitions {
  import opened Orders
  import opened Matching
  import opened Engine
  import opened Runs

  // ---------------------------------------------------------------- what trade ids cannot change

  function EraseTrade(t: Trade): Trade {
    t.(id := 0)
  }

  function EraseTrades(ts: seq<Trade>): seq<Trade> {
    seq(|ts|, i requires 0 <= i < |ts| => EraseTrade(ts[i]))
  }

  function EraseEvent(v: Event): Event {
    if v.Traded? then v.(trade := EraseTrade(v.trade)) else v
  }

  function EraseEvents(vs: seq<Event>): seq<Event> {
    seq(|vs|, i requires 0 <= i < |vs| => EraseEvent(vs[i]))
  }

  /** A state up to trade ids. */
  function Erase(e: State): State {
    e.(recorded := EraseTrades(e.recorded), events := EraseEvents(e.events), lastTradeId := 0)
  }

  function EraseOutcome(m: Outcome): Outcome {
    m.(trades := EraseTrades(m.trades))
  }

  predicate Alike(a: State, b: State) {
    Erase(a) == Erase(b)
  }

  lemma {:induction false} EraseTradesAppend(ts: seq<Trade>, us: seq<Trade>)
    ensures EraseTrades(ts + us) == EraseTrades(ts) + EraseTrades(us)
  {
  }

  lemma {:induction false} EraseEventsAppend(vs: seq<Event>, v: Event)
    ensures EraseEvents(vs + [v]) == EraseEvents(vs) + [EraseEvent(v)]
  {
  }

  /** The same match under other trade ids. */
  lemma {:induction false} FillAlike(inc: OrderData, resting: seq<OrderData>, a: TradeId, b: TradeId)
    ensures EraseOutcome(Fill(inc, resting, a)) == EraseOutcome(Fill(inc, resting, b))
    decreases |resting|
  {
    if inc.remaining > 0 && resting != [] && Crosses(inc, resting[0].price) {
      var q := Min(inc.remaining, resting[0].remaining);
      var t, u := MakeTrade(a + 1, inc, resting[0], q), MakeTrade(b + 1, inc, resting[0], q);
      assert EraseTrade(t) == EraseTrade(u);
      if resting[0].remaining <= inc.remaining {
        var s1 := FillStep(inc, resting, a);
        var s2 := FillStep(inc, resting, b);
        FillAlike(Advance(inc, resting[0].remaining), resting[1..], a + 1, b + 1);
        EraseTradesAppend([t], s1.trades);
        EraseTradesAppend([u], s2.trades);
      }
    }
  }

  lemma {:induction false} SettleAlike(e: State, f: State, t: Trade, u: Trade)
    requires Alike(e, f) && EraseTrade(t) == EraseTrade(u)
    ensures Alike(SettleTrade(e, t), SettleTrade(f, u))
  {
    assert e.store == f.store && t.buyId == u.buyId && t.sellId == u.sellId;
    if t.buyId in e.store && t.sellId in e.store {
      EraseEventsAppend(e.events, Traded(t, e.store[t.buyId], e.store[t.sellId]));
      EraseEventsAppend(f.events, Traded(u, f.store[t.buyId], f.store[t.sellId]));
    }
  }

  lemma {:induction false} LoopAlike(e: State, f: State, ts: seq<Trade>, us: seq<Trade>, record: bool)
    requires Alike(e, f) && EraseTrades(ts) == EraseTrades(us)
    ensures Alike(TradeLoop(e, ts, record), TradeLoop(f, us, record))
    decreases |ts|
  {
    assert |ts| == |us| == |EraseTrades(ts)|;
    if ts != [] {
      assert EraseTrades(ts)[0] == EraseTrades(us)[0];
      assert EraseTrades(ts[1..]) == EraseTrades(ts)[1..] == EraseTrades(us)[1..] == EraseTrades(us[1..]);
      var e1 := if record then e.(recorded := e.recorded + [ts[0]]) else e;
      var f1 := if record then f.(recorded := f.recorded + [us[0]]) else f;
      assert EraseTrades(e.recorded + [ts[0]]) == EraseTrades(e.recorded) + [EraseTrade(ts[0])];
      assert EraseTrades(f.recorded + [us[0]]) == EraseTrades(f.recorded) + [EraseTrade(us[0])];
      SettleAlike(e1, f1, ts[0], us[0]);
      LoopAlike(SettleTrade(e1, ts[0]), SettleTrade(f1, us[0]), ts[1..], us[1..], record);
    }
  }

  // ---------------------------------------------------------------- from the match to the end of a command

  /** The state once a match with outcome m is over. */
  function Matched(e: State, o: OrderData, m: Outcome): State {
    WithSide(e, Opposite(o.side), m.rest).(store := Refresh(e.store, Touched(m)))
  }

  /** The rest of a command once its match is over. */
  function Conclude(e: State, o: OrderData, m: Outcome, isNew: bool): State {
    var e' := TradeLoop(Matched(e, o, m), m.trades, isNew);
    if isNew then PlaceNew(e', m.incoming) else PlaceModified(e', m.incoming)
  }

  lemma {:induction false} PlaceAlike(e: State, f: State, o: OrderData, isNew: bool)
    requires Alike(e, f)
    ensures if isNew then Alike(PlaceNew(e, o), PlaceNew(f, o)) else Alike(PlaceModified(e, o), PlaceModified(f, o))
  {
    assert e.store == f.store && e.bids == f.bids && e.asks == f.asks && e.rows == f.rows;
  }

  /** What a command leaves behind depends on its match only up to trade ids. */
  lemma {:induction false} ConcludeAlike(e: State, f: State, o: OrderData, m: Outcome, w: Outcome, isNew: bool)
    requires Alike(e, f) && EraseOutcome(m) == EraseOutcome(w)
    ensures Alike(Conclude(e, o, m, isNew), Conclude(f, o, w, isNew))
  {
    assert m.incoming == w.incoming && m.rest == w.rest && m.consumed == w.consumed;
    assert Alike(Matched(e, o, m), Matched(f, o, w));
    LoopAlike(Matched(e, o, m), Matched(f, o, w), m.trades, w.trades, isNew);
    PlaceAlike(TradeLoop(Matched(e, o, m), m.trades, isNew), TradeLoop(Matched(f, o, w), w.trades, isNew), m.incoming, isNew);
  }

  /** A command with a match is its preparation, the match and the conclusion. */
  lemma {:induction false} StepConcludes(e: State, c: Command)
    requires JobOf(e, c).Job?
    ensures var j := JobOf(e, c); Alike(Step(e, c), Conclude(j.state, j.order, MatchIn(j), c.Submit?))
  {
    var j := JobOf(e, c);
    var m := MatchIn(j);
    assert Alike(AfterMatch(j.state, j.order), Matched(j.state, j.order, m));
    LoopAlike(AfterMatch(j.state, j.order), Matched(j.state, j.order, m), m.trades, m.trades, c.Submit?);
    PlaceAlike(TradeLoop(AfterMatch(j.state, j.order), m.trades, c.Submit?),
               TradeLoop(Matched(j.state, j.order, m), m.trades, c.Submit?), m.incoming, c.Submit?);
  }

  /** How a command starts does not depend on trade ids at all. */
  lemma {:induction false} JobAlike(e: State, f: State, c: Command)
    requires Alike(e, f)
    ensures JobOf(e, c).Job? <==> JobOf(f, c).Job?
    ensures JobOf(e, c).Job? ==> JobOf(e, c).order == JobOf(f, c).order && Alike(JobOf(e, c).state, JobOf(f, c).state)
    ensures JobOf(e, c).NoMatch? ==> Alike(Step(e, c), Step(f, c))
  {
    assert e.store == f.store && e.bids == f.bids && e.asks == f.asks && e.rows == f.rows;
    match c
    case Submit(o) =>
      EraseEventsAppend(e.events, Executed("NEW", o));
      EraseEventsAppend(f.events, Executed("NEW", o));
      EraseEventsAppend(e.events, Rejected(o.id, "Risk check failed"));
      EraseEventsAppend(f.events, Rejected(o.id, "Risk check failed"));
    case Cancel(id) =>
      CancelAlike(e, f, id);
    case Modify(id, price, quantity) =>
      ModifyAlike(e, f, id, price, quantity);
  }

  lemma {:induction false} CancelAlike(e: State, f: State, id: OrderId)
    requires Alike(e, f)
    ensures Alike(CancelOrder(e, id), CancelOrder(f, id))
  {
    assert e.store == f.store && e.bids == f.bids && e.asks == f.asks && e.rows == f.rows;
    if id in e.store {
      EraseEventsAppend(e.events, Executed("CANCELED", e.store[id]));
      EraseEventsAppend(f.events, Executed("CANCELED", f.store[id]));
    }
    EraseEventsAppend(e.events, Rejected(id, "Order not found"));
    EraseEventsAppend(f.events, Rejected(id, "Order not found"));
    EraseEventsAppend(e.events, Rejected(id, "Order cannot be canceled"));
    EraseEventsAppend(f.events, Rejected(id, "Order cannot be canceled"));
  }

  lemma {:induction false} ModifyAlike(e: State, f: State, id: OrderId, price: Price, quantity: Quantity)
    requires Alike(e, f)
    ensures if id in e.store then var o := Replaced(e.store[id], price, quantity); Alike(Reprice(e, o), Reprice(f, o))
            else Alike(ModifyOrder(e, id, price, quantity), ModifyOrder(f, id, price, quantity))
  {
    assert e.store == f.store && e.bids == f.bids && e.asks == f.asks && e.rows == f.rows;
    if id in e.store {
      var o := Replaced(e.store[id], price, quantity);
      EraseEventsAppend(e.events, Executed("REPLACED", o));
      EraseEventsAppend(f.events, Executed("REPLACED", o));
    } else {
      EraseEventsAppend(e.events, Rejected(id, "Order not found"));
      EraseEventsAppend(f.events, Rejected(id, "Order not found"));
    }
  }

  /** A whole command, run alone from any two states that agree up to trade ids. */
  lemma {:induction false} StepAlike(e: State, f: State, c: Command)
    requires Alike(e, f)
    ensures Alike(Step(e, c), Step(f, c))
  {
    JobAlike(e, f, c);
    var j, k := JobOf(e, c), JobOf(f, c);
    if j.Job? {
      StepConcludes(e, c);
      StepConcludes(f, c);
      assert SideOf(j.state, Opposite(j.order.side)) == SideOf(k.state, Opposite(j.order.side));
      FillAlike(j.order, SideOf(j.state, Opposite(j.order.side)), j.state.lastTradeId, k.state.lastTradeId);
      ConcludeAlike(j.state, k.state, j.order, MatchIn(j), MatchIn(k), c.Submit?);
    }
  }
}
