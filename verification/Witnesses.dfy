/** Concrete runs on which the stronger claims fail. */
module Witnesses {
  import opened Orders
  import opened Matching
  import opened PriceTime
  import opened Engine
  import opened Invariants
  import opened Reachable
  import opened Runs
  import opened Ledger

  function Limit1(id: OrderId, sender: string, side: Side, quantity: Quantity): OrderData {
    OrderData(id, sender, side, Limit, quantity, quantity, 1.0, OrderStatus.New)
  }

  const SELL1 := Submit(Limit1(1, "A", Sell, 1))
  const SELL2 := Submit(Limit1(2, "B", Sell, 1))
  const BUY3 := Submit(Limit1(3, "C", Buy, 2))

  /** With nothing to trade against, a limit order is stored and joins the book. */
  lemma {:induction false} JoinsEmptyMarket(e: State, o: OrderData)
    requires Inv(e) && Admissible(e, Submit(o)) && SideOf(e, Opposite(o.side)) == []
    requires o.otype == Limit && o.original > 0 && o.price > 0.0
    ensures var e' := Step(e, Submit(o));
      && SideOf(e', o.side) == Insert(o.side, SideOf(e, o.side), o)
      && SideOf(e', Opposite(o.side)) == []
      && e'.store == e.store[o.id := o]
      && e'.rows == e.rows[o.id := Row(o.remaining, o.status)]
  {
    var e1 := Accept(e, o);
    var j := Job(e1, o);
    assert JobOf(e, Submit(o)) == j;
    StepPlaces(e, Submit(o));
    assert MatchIn(j) == Outcome(o, [], [], []);
    NoTrades(e1, o);
    assert o.id !in e.rows.Keys;
  }

  lemma {:induction false} NoTrades(e: State, o: OrderData)
    requires SideOf(e, Opposite(o.side)) == [] && o.remaining > 0 && o.otype == Limit
    requires o.id in e.store && e.store[o.id] == o
    ensures AfterTrades(Job(e, o), true) == e
  {
    var m := MatchOf(e, o);
    assert m == Outcome(o, [], [], []);
    assert Touched(m) == [o];
    assert [o][1..] == [];
    assert forall id | id in e.store :: Lookup([o], id, e.store[id]) == e.store[id];
    assert Refresh(e.store, [o]) == e.store;
  }

  lemma {:induction false} OneRestingSell() returns (cs: seq<Command>)
    ensures cs == [SELL1]
    ensures var e := Run(cs);
      && e.asks == [SELL1.order] && e.bids == [] && e.store == map[1 := SELL1.order]
      && e.rows == map[1 := Row(1, OrderStatus.New)]
  {
    cs := [];
    JoinsEmptyMarket(Run(cs), SELL1.order);
    RunAppend(cs, SELL1);
    cs := cs + [SELL1];
  }

  lemma {:induction false} SecondQueues()
    ensures Insert(Sell, [SELL1.order], SELL2.order) == [SELL1.order, SELL2.order]
  {
    assert [SELL1.order][1..] == [];
  }

  predicate BothSellsRest(e: State) {
    && e.asks == [SELL1.order, SELL2.order] && e.store == map[1 := SELL1.order, 2 := SELL2.order]
    && e.rows == map[1 := Row(1, OrderStatus.New), 2 := Row(1, OrderStatus.New)]
  }

  lemma {:induction false} SecondSell(e: State)
    requires Inv(e) && e.asks == [SELL1.order] && e.bids == [] && e.store == map[1 := SELL1.order]
    requires e.rows == map[1 := Row(1, OrderStatus.New)]
    ensures BothSellsRest(Step(e, SELL2))
  {
    SecondQueues();
    JoinsEmptyMarket(e, SELL2.order);
  }

  lemma {:induction false} RestingSells() returns (cs: seq<Command>)
    ensures cs == [SELL1, SELL2]
    ensures BothSellsRest(Run(cs))
  {
    var first := OneRestingSell();
    cs := [SELL1, SELL2];
    assert cs == first + [SELL2];
    RunKeepsInv(first);
    SecondSell(Run(first));
    RunAppend(first, SELL2);
  }

  lemma {:induction false} EnoughForBuy(asks: seq<OrderData>)
    requires asks == [SELL1.order, SELL2.order]
    ensures Available(BUY3.order, asks) == 2
  {
    assert asks[1..] == [SELL2.order] && asks[1..][1..] == [];
    assert Available(BUY3.order, asks[1..][1..]) == 0;
    assert Available(BUY3.order, asks[1..]) == 1;
  }

  /** The match of the buy: both sells are filled, and only the first trade is handled. */
  lemma {:induction false} BuyMatch(e: State)
    requires e.asks == [SELL1.order, SELL2.order]
    ensures JobOf(e, BUY3) == Job(Accept(e, BUY3.order), BUY3.order)
    ensures LeftBehind(MatchIn(JobOf(e, BUY3)), 2) && TakesSeveral(JobOf(e, BUY3))
  {
    var o := BUY3.order;
    TwoFills(o, e.asks, e.lastTradeId);
    EnoughForBuy(e.asks);
    assert MatchIn(JobOf(e, BUY3)) == Match(o, e.asks, e.lastTradeId);
    assert MatchIn(JobOf(e, BUY3)).consumed[1].id == 2;
  }

  lemma {:induction false} SpentIsOffBook(e: State, id: OrderId)
    requires Inv(e) && Spent(e, id)
    ensures !HasId(e.asks, id) && !HasId(e.bids, id)
  {
    OnBookIffRemaining(e, id);
  }

  lemma {:induction false} BuyLeavesBehind(e: State)
    requires Inv(e) && Admissible(e, BUY3) && e.asks == [SELL1.order, SELL2.order] && RowsAgree(e)
    ensures var e' := Step(e, BUY3);
      Spent(e', 2) && !RowsAgree(e') && !HasId(e'.asks, 2) && !HasId(e'.bids, 2)
  {
    BuyMatch(e);
    StepSpent(e, BUY3, 2);
    StepRows(e, BUY3);
    StepKeeps(e, BUY3);
    SpentIsOffBook(Step(e, BUY3), 2);
  }

  lemma {:induction false} ReadyForBuy() returns (cs: seq<Command>)
    ensures cs == [SELL1, SELL2]
    ensures var e := Run(cs); Inv(e) && Admissible(e, BUY3) && e.asks == [SELL1.order, SELL2.order] && RowsAgree(e)
  {
    cs := RestingSells();
    RunKeepsInv(cs);
    RowsOfResting(Run(cs));
  }

  lemma {:induction false} RowsOfResting(e: State)
    requires BothSellsRest(e)
    ensures RowsAgree(e) && Admissible(e, BUY3)
  {
  }

  lemma {:induction false} FreshWitness(cs: seq<Command>)
    requires cs == [SELL1, SELL2, BUY3]
    ensures FreshRun(cs)
  {
  }

  /** A buy of two units filled by two resting sells: the second sell is filled and off the
      book but still stored, and the order table still shows it open. */
  lemma {:induction false} SecondFillIsLeftBehind() returns (cs: seq<Command>)
    ensures cs == [SELL1, SELL2, BUY3] && FreshRun(cs)
    ensures Spent(Run(cs), 2) && !HasId(Run(cs).asks, 2) && !HasId(Run(cs).bids, 2) && !RowsAgree(Run(cs))
  {
    var sells := ReadyForBuy();
    cs := sells + [BUY3];
    BuyLeavesBehind(Run(sells));
    RunAppend(sells, BUY3);
    FreshWitness(cs);
  }

  lemma {:induction false} RunAppend(cs: seq<Command>, c: Command)
    ensures Run(cs + [c]) == Step(Run(cs), c)
  {
    assert (cs + [c])[..|cs|] == cs;
  }

  lemma {:induction false} TwoFills(o: OrderData, asks: seq<OrderData>, lastId: TradeId)
    requires o == BUY3.order && asks == [SELL1.order, SELL2.order]
    ensures var m := Match(o, asks, lastId);
      |m.trades| == 2 && |m.consumed| == 2 && m.consumed[1].id == 2 && m.incoming.remaining == 0
    ensures PreCheck(o, asks)
  {
    var sub := FillStep(o, asks, lastId);
    assert asks[1..] == [SELL2.order];
    var sub2 := FillStep(Advance(o, 1), asks[1..], lastId + 1);
    assert asks[1..][1..] == [];
    assert !ScanSelfMatch(o, asks[1..][1..]);
    assert !ScanSelfMatch(o, asks[1..]);
  }
}
