/** Price-time matching as one recursive greedy pass over the flattened book side. */
module Matching {
  import opened Orders

  /** What one match leaves behind: the incoming order, the resting side, the resting
      orders that were filled (in their final state) and the trades, oldest first. */
  datatype Outcome = Outcome(incoming: OrderData, rest: seq<OrderData>, consumed: seq<OrderData>, trades: seq<Trade>)

  /** A market order crosses every price, a limit order the prices up to its limit. */
  predicate Crosses(inc: OrderData, price: Price) {
    inc.otype == Limit ==> if inc.side == Buy then inc.price >= price else inc.price <= price
  }

  function MakeTrade(id: TradeId, inc: OrderData, resting: OrderData, quantity: Quantity): Trade {
    if inc.side == Buy
    then Trade(id, inc.id, resting.id, quantity, resting.price)
    else Trade(id, resting.id, inc.id, quantity, resting.price)
  }

  /** The greedy match. `lastId` is the last trade id already issued. */
  function Fill(inc: OrderData, resting: seq<OrderData>, lastId: TradeId): Outcome
    decreases |resting|
  {
    if inc.remaining == 0 || resting == [] || !Crosses(inc, resting[0].price) then
      Outcome(inc, resting, [], [])
    else
      var q := Min(inc.remaining, resting[0].remaining);
      var t := MakeTrade(lastId + 1, inc, resting[0], q);
      var inc' := inc.(remaining := inc.remaining - q, status := PartiallyFilled);
      var left := resting[0].remaining - q;
      if left == 0 then
        var out := Fill(inc', resting[1..], lastId + 1);
        out.(consumed := [resting[0].(remaining := 0, status := Filled)] + out.consumed, trades := [t] + out.trades)
      else
        Outcome(inc', [resting[0].(remaining := left, status := PartiallyFilled)] + resting[1..], [], [t])
  }

  /** The status the matcher leaves on the incoming order once its loops are done. */
  function Finish(inc: OrderData): OrderData {
    if inc.remaining == 0 then inc.(status := Filled)
    else if inc.otype == Market && inc.original == inc.remaining then inc.(status := Cancelled)
    else inc
  }

  function Match(inc: OrderData, resting: seq<OrderData>, lastId: TradeId): Outcome {
    var out := Fill(inc, resting, lastId);
    out.(incoming := Finish(out.incoming))
  }

  /** Resting order i after its trade. */
  function Filled1(o: OrderData): OrderData {
    o.(remaining := 0, status := Filled)
  }

  /** A prefix of the resting side is filled completely, at most the next order is
      reduced, and everything behind it is untouched. */
  ghost predicate TakesPrefix(resting: seq<OrderData>, out: Outcome) {
    var k := |out.consumed|;
    var n := |out.trades|;
    && k <= n <= |resting| && n <= k + 1
    && (forall i | 0 <= i < k :: out.consumed[i] == Filled1(resting[i]))
    && if n == k then out.rest == resting[k..] else
         && out.incoming.remaining == 0
         && out.trades[k].quantity < resting[k].remaining
         && out.rest == [Reduced(resting[k], out.trades[k].quantity)] + resting[k + 1..]
  }

  function Reduced(o: OrderData, quantity: Quantity): OrderData
    requires quantity <= o.remaining
  {
    o.(remaining := o.remaining - quantity, status := PartiallyFilled)
  }

  /** Trade i is with resting order i, at that order's price, for all it has left unless
      it is the last one, and only at a price the incoming order accepts. */
  ghost predicate TradesInOrder(inc: OrderData, resting: seq<OrderData>, lastId: TradeId, out: Outcome) {
    && |out.consumed| <= |out.trades| <= |resting|
    && forall i | 0 <= i < |out.trades| ::
         && out.trades[i] == MakeTrade(lastId + 1 + i, inc, resting[i], out.trades[i].quantity)
         && (i < |out.consumed| ==> out.trades[i].quantity == resting[i].remaining)
         && Crosses(inc, resting[i].price)
  }

  function Advance(inc: OrderData, quantity: Quantity): OrderData
    requires quantity <= inc.remaining
  {
    inc.(remaining := inc.remaining - quantity, status := PartiallyFilled)
  }

  /** Unfolds one full fill of the head. */
  lemma {:induction false} FillStep(inc: OrderData, resting: seq<OrderData>, lastId: TradeId) returns (sub: Outcome)
    requires inc.remaining > 0 && resting != [] && Crosses(inc, resting[0].price)
    requires resting[0].remaining <= inc.remaining
    ensures sub == Fill(Advance(inc, resting[0].remaining), resting[1..], lastId + 1)
    ensures Fill(inc, resting, lastId)
         == sub.(consumed := [Filled1(resting[0])] + sub.consumed,
                 trades := [MakeTrade(lastId + 1, inc, resting[0], resting[0].remaining)] + sub.trades)
  {
    sub := Fill(Advance(inc, resting[0].remaining), resting[1..], lastId + 1);
  }

  lemma {:induction false} FillTakesPrefix(inc: OrderData, resting: seq<OrderData>, lastId: TradeId)
    ensures TakesPrefix(resting, Fill(inc, resting, lastId))
    decreases |resting|
  {
    if inc.remaining > 0 && resting != [] && Crosses(inc, resting[0].price) && resting[0].remaining <= inc.remaining {
      var sub := FillStep(inc, resting, lastId);
      FillTakesPrefix(Advance(inc, resting[0].remaining), resting[1..], lastId + 1);
    }
  }

  /** A full fill of the head in front of trades that are in order. */
  lemma {:induction false} OneMoreTrade(inc: OrderData, resting: seq<OrderData>, lastId: TradeId, sub: Outcome)
    requires resting != [] && Crosses(inc, resting[0].price) && resting[0].remaining <= inc.remaining
    requires TradesInOrder(Advance(inc, resting[0].remaining), resting[1..], lastId + 1, sub)
    ensures TradesInOrder(inc, resting, lastId,
      sub.(consumed := [Filled1(resting[0])] + sub.consumed,
           trades := [MakeTrade(lastId + 1, inc, resting[0], resting[0].remaining)] + sub.trades))
  {
    var trades := [MakeTrade(lastId + 1, inc, resting[0], resting[0].remaining)] + sub.trades;
    forall i | 0 <= i < |trades|
      ensures trades[i] == MakeTrade(lastId + 1 + i, inc, resting[i], trades[i].quantity) && Crosses(inc, resting[i].price)
      ensures i < 1 + |sub.consumed| ==> trades[i].quantity == resting[i].remaining
    {
      if i > 0 {
        assert trades[i] == sub.trades[i - 1] && resting[i] == resting[1..][i - 1];
      }
    }
  }

  lemma {:induction false} FillTradesInOrder(inc: OrderData, resting: seq<OrderData>, lastId: TradeId)
    ensures TradesInOrder(inc, resting, lastId, Fill(inc, resting, lastId))
    decreases |resting|
  {
    if inc.remaining > 0 && resting != [] && Crosses(inc, resting[0].price) && resting[0].remaining <= inc.remaining {
      var sub := FillStep(inc, resting, lastId);
      FillTradesInOrder(Advance(inc, resting[0].remaining), resting[1..], lastId + 1);
      OneMoreTrade(inc, resting, lastId, sub);
    }
  }

  /** The match stops only when the incoming order is filled or nothing left crosses. */
  lemma {:induction false} FillStops(inc: OrderData, resting: seq<OrderData>, lastId: TradeId)
    ensures var out := Fill(inc, resting, lastId);
      out.incoming.remaining == 0 || out.rest == [] || !Crosses(inc, out.rest[0].price)
    decreases |resting|
  {
    if inc.remaining > 0 && resting != [] && Crosses(inc, resting[0].price) && resting[0].remaining <= inc.remaining {
      var sub := FillStep(inc, resting, lastId);
      FillStops(Advance(inc, resting[0].remaining), resting[1..], lastId + 1);
    }
  }

  /** The incoming order loses exactly what was traded, and so does the resting side. */
  lemma {:induction false} FillConserves(inc: OrderData, resting: seq<OrderData>, lastId: TradeId)
    ensures var out := Fill(inc, resting, lastId);
      && inc.remaining == out.incoming.remaining + TotalTraded(out.trades)
      && TotalRemaining(resting) == TotalRemaining(out.rest) + TotalTraded(out.trades)
      && out.incoming == inc.(remaining := out.incoming.remaining,
                              status := if out.trades == [] then inc.status else PartiallyFilled)
    decreases |resting|
  {
    if inc.remaining > 0 && resting != [] && Crosses(inc, resting[0].price) && resting[0].remaining <= inc.remaining {
      var sub := FillStep(inc, resting, lastId);
      FillConserves(Advance(inc, resting[0].remaining), resting[1..], lastId + 1);
    }
  }
}
