/** Order objects and one price-sorted side of the book holding references to them.

    `levels` plays the part of the source's sorted map from price to a FIFO queue of order
    pointers, in iteration order: best price first. */
module BookObjects {
  import opened Sequences
  import opened Orders
  import opened Matching

  class Order {
    const id: OrderId
    const sender: string
    const side: Side
    const otype: OrderType
    var original: Quantity
    var remaining: Quantity
    var price: Price
    var status: OrderStatus

    constructor (id: OrderId, sender: string, side: Side, otype: OrderType, quantity: Quantity, price: Price)
      ensures Data() == OrderData(id, sender, side, otype, quantity, quantity, price, OrderStatus.New)
    {
      this.id, this.sender, this.side, this.otype := id, sender, side, otype;
      original, remaining, this.price, status := quantity, quantity, price, OrderStatus.New;
    }

    function Data(): OrderData
      reads this
    {
      OrderData(id, sender, side, otype, original, remaining, price, status)
    }

    /** New terms for the order, which is then entirely open again. */
    method Replace(price: Price, quantity: Quantity)
      modifies this
      ensures Data() == old(Data()).(price := price, original := quantity, remaining := quantity, status := OrderStatus.New)
    {
      this.price := price;
      original, remaining := quantity, quantity;
      status := OrderStatus.New;
    }
  }

  datatype Level = Level(price: Price, orders: seq<Order>)

  /** All orders of a side, best level first, oldest first. */
  function Flat(levels: seq<Level>): seq<Order> {
    if levels == [] then [] else levels[0].orders + Flat(levels[1..])
  }

  /** n times the same price. */
  function Times(price: Price, n: nat): (ks: seq<Price>)
    ensures |ks| == n && forall i | 0 <= i < n :: ks[i] == price
  {
    seq(n, i => price)
  }

  /** The price key under which each order of `Flat` is filed. */
  function Keys(levels: seq<Level>): (ks: seq<Price>)
    ensures |ks| == |Flat(levels)|
  {
    if levels == [] then []
    else Times(levels[0].price, |levels[0].orders|) + Keys(levels[1..])
  }

  /** No level is empty and the keys are in strict priority order. */
  predicate Shaped(side: Side, levels: seq<Level>) {
    && (forall i | 0 <= i < |levels| :: levels[i].orders != [])
    && (forall i, j | 0 <= i < j < |levels| :: Better(side, levels[i].price, levels[j].price))
  }

  /** Every order is filed under its own price. */
  ghost predicate Priced(levels: seq<Level>)
    reads Flat(levels)
  {
    forall i | 0 <= i < |Flat(levels)| :: Flat(levels)[i].price == Keys(levels)[i]
  }

  function Datas(s: seq<Order>): (ds: seq<OrderData>)
    reads s
    ensures |ds| == |s| && forall i | 0 <= i < |s| :: ds[i] == s[i].Data()
  {
    seq(|s|, i requires 0 <= i < |s| reads s => s[i].Data())
  }

  predicate NoDuplicates(s: seq<Order>) {
    forall i, j | 0 <= i < j < |s| :: s[i] != s[j]
  }

  class BookSide {
    const side: Side
    var levels: seq<Level>

    constructor (side: Side)
      ensures this.side == side && levels == []
    {
      this.side := side;
      levels := [];
    }

    ghost predicate Valid()
      reads this, Flat(levels)
    {
      Shaped(side, levels) && Priced(levels) && NoDuplicates(Flat(levels))
    }

    function Data(): seq<OrderData>
      reads this, Flat(levels)
    {
      Datas(Flat(levels))
    }
  }

  /** The shared counter that hands out trade ids. */
  class TradeIDGenerator {
    var current: TradeId

    constructor ()
      ensures current == 0
    {
      current := 0;
    }

    method NextId() returns (id: TradeId)
      modifies this
      ensures id == old(current) + 1 && current == id
    {
      current := current + 1;
      id := current;
    }
  }

  function RefSet(s: seq<Order>): set<Order> {
    set o | o in s
  }

  // ---------------------------------------------------------------- the matcher

  /** The outcome of a match whose first part is already done. */
  function After(done: seq<OrderData>, trades: seq<Trade>, out: Outcome): Outcome {
    out.(consumed := done + out.consumed, trades := trades + out.trades)
  }

  /** A match so far: the first k orders are filled, the incoming order still has to match
      with the others. */
  ghost predicate SoFar(whole: Outcome, inc: OrderData, vals: seq<OrderData>, k: nat, trades: seq<Trade>, lastId: TradeId) {
    k <= |vals| && whole == After(vals[..k], trades, Fill(inc, vals[k..], lastId))
  }

  /** The resting order at position k after trading q. */
  function Traded1(o: OrderData, quantity: Quantity): OrderData
    requires quantity <= o.remaining
  {
    if quantity == o.remaining then Filled1(o) else Reduced(o, quantity)
  }

  /** One iteration of the inner loop, on values: `vals` is the whole side as it was, its
      first k orders already filled. */
  lemma {:induction false} LoopStep(whole: Outcome, inc: OrderData, vals: seq<OrderData>, k: nat, trades: seq<Trade>, lastId: TradeId)
    returns (q: Quantity, vals': seq<OrderData>, k': nat, t: Trade, id: TradeId)
    requires k < |vals| && SoFar(whole, inc, vals, k, trades, lastId)
    requires inc.remaining > 0 && Crosses(inc, vals[k].price)
    ensures q == Min(inc.remaining, vals[k].remaining)
    ensures vals' == vals[k := Traded1(vals[k], q)] && k' == (if q == vals[k].remaining then k + 1 else k)
    ensures id == lastId + 1 && t == MakeTrade(id, inc, vals[k], q)
    ensures SoFar(whole, Advance(inc, q), vals', k', trades + [t], id)
  {
    var before, front, after := vals[..k], vals[k], vals[k + 1..];
    id, q := lastId + 1, Min(inc.remaining, front.remaining);
    t := MakeTrade(id, inc, front, q);
    vals' := vals[k := Traded1(front, q)];
    SplitAt(vals, k, front, before, after);
    SplitAt(vals', k, Traded1(front, q), before, after);
    if q == front.remaining {
      k' := k + 1;
      FillsFront(whole, inc, before, front, after, trades, lastId, id, t);
    } else {
      k' := k;
      ReducesFront(whole, inc, before, front, after, trades, lastId, id, t);
    }
  }

  lemma {:induction false} FillsFront(whole: Outcome, inc: OrderData, before: seq<OrderData>, front: OrderData, after: seq<OrderData>,
                                      trades: seq<Trade>, lastId: TradeId, id: TradeId, t: Trade)
    requires whole == After(before, trades, Fill(inc, [front] + after, lastId)) && id == lastId + 1
    requires 0 < inc.remaining && front.remaining <= inc.remaining && Crosses(inc, front.price)
    requires t == MakeTrade(id, inc, front, front.remaining)
    ensures whole == After(before + [Filled1(front)], trades + [t], Fill(Advance(inc, front.remaining), after, id))
  {
    assert ([front] + after)[1..] == after;
    var sub := FillStep(inc, [front] + after, lastId);
    Associate(before, [Filled1(front)], sub.consumed);
    Associate(trades, [t], sub.trades);
  }

  lemma {:induction false} ReducesFront(whole: Outcome, inc: OrderData, before: seq<OrderData>, front: OrderData, after: seq<OrderData>,
                                        trades: seq<Trade>, lastId: TradeId, id: TradeId, t: Trade)
    requires whole == After(before, trades, Fill(inc, [front] + after, lastId)) && id == lastId + 1
    requires 0 < inc.remaining < front.remaining && Crosses(inc, front.price)
    requires t == MakeTrade(id, inc, front, inc.remaining)
    ensures whole == After(before, trades + [t], Fill(Advance(inc, inc.remaining), [Reduced(front, inc.remaining)] + after, id))
  {
    assert ([front] + after)[1..] == after;
  }

  lemma {:induction false} SplitAt<T>(s: seq<T>, k: nat, x: T, before: seq<T>, after: seq<T>)
    requires k == |before| && s == before + [x] + after
    ensures k < |s| && s[..k] == before && s[k..] == [x] + after
    ensures s[..k + 1] == before + [x] && s[k + 1..] == after
  {
  }

  /** The part of the inner loop that trades with one resting order. */
  method TradeWith(inc: Order, resting: Order, ids: TradeIDGenerator) returns (trade: Trade)
    requires inc != resting
    modifies inc`remaining, inc`status, resting`remaining, resting`status, ids
    ensures var q := Min(old(inc.remaining), old(resting.remaining));
      && trade == MakeTrade(old(ids.current) + 1, old(inc.Data()), old(resting.Data()), q)
      && inc.Data() == Advance(old(inc.Data()), q)
      && resting.Data() == Traded1(old(resting.Data()), q)
      && ids.current == old(ids.current) + 1
  {
    var quantity := Min(inc.remaining, resting.remaining);
    var price := resting.price;
    var buyId := if inc.side == Buy then inc.id else resting.id;
    var sellId := if inc.side == Buy then resting.id else inc.id;
    var newId := ids.NextId();
    trade := Trade(newId, buyId, sellId, quantity, price);
    inc.remaining := inc.remaining - quantity;
    resting.remaining := resting.remaining - quantity;
    inc.status := PartiallyFilled;
    resting.status := if resting.remaining == 0 then Filled else PartiallyFilled;
  }

  /** Popping the first order of the first level pops the flattened side. */
  lemma {:induction false} FlatPop(price: Price, queue: seq<Order>, tail: seq<Level>)
    requires queue != []
    ensures Flat([Level(price, queue)] + tail) == [queue[0]] + Flat([Level(price, queue[1..])] + tail)
    ensures Keys([Level(price, queue)] + tail) == [price] + Keys([Level(price, queue[1..])] + tail)
  {
    assert ([Level(price, queue)] + tail)[1..] == tail;
    assert ([Level(price, queue[1..])] + tail)[1..] == tail;
  }

  /** An empty first level can be erased. */
  lemma {:induction false} FlatErase(price: Price, tail: seq<Level>)
    ensures Flat([Level(price, [])] + tail) == Flat(tail)
    ensures Keys([Level(price, [])] + tail) == Keys(tail)
  {
    assert ([Level(price, [])] + tail)[1..] == tail;
  }

  /** The level at the front of the side has this price and queue, `tail` is behind it. */
  predicate FrontIs(side: Side, levels: seq<Level>, price: Price, queue: seq<Order>, tail: seq<Level>) {
    && levels == [Level(price, queue)] + tail
    && Shaped(side, tail) && forall i | 0 <= i < |tail| :: Better(side, price, tail[i].price)
  }

  /** A side with a non-empty level at its front, and what that says about the flat view. */
  lemma {:induction false} FrontOf(side: Side, levels: seq<Level>)
    requires Shaped(side, levels) && levels != []
    ensures FrontIs(side, levels, levels[0].price, levels[0].orders, levels[1..])
    ensures Flat(levels) != [] && Flat(levels)[0] == levels[0].orders[0] && Keys(levels)[0] == levels[0].price
  {
  }

  lemma {:induction false} FrontShaped(side: Side, levels: seq<Level>, price: Price, queue: seq<Order>, tail: seq<Level>)
    requires FrontIs(side, levels, price, queue, tail)
    ensures queue != [] ==> Shaped(side, levels)
  {
  }

  lemma {:induction false} NextSuffix<T>(s: seq<T>, k: nat, x: T, rest: seq<T>)
    requires k <= |s| && s[k..] == [x] + rest
    ensures k < |s| && s[k] == x && s[k + 1..] == rest
  {
    assert s[k..][0] == x;
    assert s[k + 1..] == s[k..][1..];
  }

  /** How far a match has come: k orders of `refs` are filled, the rest is still on the side. */
  ghost predicate Progress(whole: Outcome, inc: Order, ids: TradeIDGenerator,
                           refs: seq<Order>, k: nat, vals: seq<OrderData>, trades: seq<Trade>)
    reads inc, refs, ids
  {
    && vals == Datas(refs)
    && SoFar(whole, inc.Data(), vals, k, trades, ids.current)
  }

  /** The side now holds the orders from position k on, under their own prices. */
  predicate Holds(levels: seq<Level>, refs: seq<Order>, prices: seq<Price>, k: nat) {
    && k <= |refs| == |prices|
    && Flat(levels) == refs[k..] && Keys(levels) == prices[k..]
  }

  /** Popping the front order moves on by one position. */
  lemma {:induction false} HoldsPop(refs: seq<Order>, prices: seq<Price>, k: nat, price: Price, queue: seq<Order>, tail: seq<Level>)
    requires queue != [] && Holds([Level(price, queue)] + tail, refs, prices, k)
    ensures k < |refs| && refs[k] == queue[0] && prices[k] == price
    ensures Holds([Level(price, queue[1..])] + tail, refs, prices, k + 1)
  {
    FlatPop(price, queue, tail);
    NextSuffix(refs, k, queue[0], Flat([Level(price, queue[1..])] + tail));
    NextSuffix(prices, k, price, Keys([Level(price, queue[1..])] + tail));
  }

  lemma {:induction false} HoldsErase(refs: seq<Order>, prices: seq<Price>, k: nat, price: Price, tail: seq<Level>)
    requires Holds([Level(price, [])] + tail, refs, prices, k)
    ensures Holds(tail, refs, prices, k)
  {
    FlatErase(price, tail);
  }

  lemma {:induction false} HoldsIsPriced(levels: seq<Level>, refs: seq<Order>, prices: seq<Price>, k: nat)
    requires Holds(levels, refs, prices, k) && NoDuplicates(refs)
    requires forall i | 0 <= i < |refs| :: refs[i].price == prices[i]
    ensures Priced(levels) && NoDuplicates(Flat(levels))
  {
    forall i | 0 <= i < |Flat(levels)| ensures Flat(levels)[i].price == Keys(levels)[i] {
      assert Flat(levels)[i] == refs[k + i] && Keys(levels)[i] == prices[k + i];
    }
  }

  /** The body of the inner loop: trade with the front order and pop it if it is filled. */
  method MatchFront(inc: Order, table: BookSide, ids: TradeIDGenerator, it: nat,
                    ghost front: Order, ghost price: Price, ghost queue: seq<Order>, ghost tail: seq<Level>)
    returns (trade: Trade)
    requires it == 0 && queue != [] && front == queue[0] && inc != front
    requires table.levels == [Level(price, queue)] + tail
    modifies inc`remaining, inc`status, front`remaining, front`status, table`levels, ids
    ensures var q := Min(old(inc.remaining), old(front.remaining));
      && trade == MakeTrade(old(ids.current) + 1, old(inc.Data()), old(front.Data()), q)
      && inc.Data() == Advance(old(inc.Data()), q)
      && front.Data() == Traded1(old(front.Data()), q)
      && ids.current == old(ids.current) + 1
      && table.levels == [Level(price, if q == old(front.remaining) then queue[1..] else queue)] + tail
  {
    var resting := table.levels[it].orders[0];
    trade := TradeWith(inc, resting, ids);
    if resting.remaining == 0 {
      table.levels := table.levels[it := Level(table.levels[it].price, table.levels[it].orders[1..])];
    }
  }

  /** `MatchFront` on the values of the whole side: position k changes, nothing else. */
  method MatchFrontOf(inc: Order, table: BookSide, ids: TradeIDGenerator, it: nat,
                      ghost o: OrderData, ghost q: Quantity, ghost t: Trade, ghost id: TradeId,
                      ghost refs: seq<Order>, ghost k: nat, ghost vals: seq<OrderData>,
                      ghost front: Order, ghost price: Price, ghost queue: seq<Order>, ghost tail: seq<Level>)
    returns (trade: Trade)
    requires it == 0 && k < |refs| && queue != [] && refs[k] == front == queue[0] && inc !in refs && NoDuplicates(refs)
    requires table.levels == [Level(price, queue)] + tail
    requires inc.Data() == o && Datas(refs) == vals && q == Min(o.remaining, vals[k].remaining)
    requires id == ids.current + 1 && t == MakeTrade(id, o, vals[k], q)
    modifies inc`remaining, inc`status, front`remaining, front`status, table`levels, ids
    ensures trade == t
    ensures inc.Data() == Advance(o, q) && ids.current == id
    ensures Datas(refs) == vals[k := Traded1(vals[k], q)] && forall i | 0 <= i < |refs| :: refs[i].price == vals[i].price
    ensures table.levels == [Level(price, if q == vals[k].remaining then queue[1..] else queue)] + tail
  {
    assert refs[k].Data() == vals[k];
    trade := MatchFront(inc, table, ids, it, front, price, queue, tail);
    forall i | 0 <= i < |refs| ensures refs[i].Data() == vals[k := Traded1(vals[k], q)][i] && refs[i].price == vals[i].price {
      assert i != k ==> old(refs[i].Data()) == vals[i];
    }
  }

  /** The front of the side while a match is in progress. */
  ghost predicate AtFront(whole: Outcome, inc: Order, table: BookSide, ids: TradeIDGenerator,
                          refs: seq<Order>, prices: seq<Price>, k: nat, vals: seq<OrderData>, trades: seq<Trade>,
                          price: Price, queue: seq<Order>, tail: seq<Level>)
    reads inc, table, ids, refs
  {
    && inc !in refs && NoDuplicates(refs)
    && table.levels == [Level(price, queue)] + tail && Holds(table.levels, refs, prices, k)
    && Progress(whole, inc, ids, refs, k, vals, trades) && Crosses(inc.Data(), price)
    && forall i | 0 <= i < |refs| :: refs[i].price == prices[i]
  }

  /** One iteration of the inner loop keeps track of the whole match. */
  method MatchOne(inc: Order, table: BookSide, ids: TradeIDGenerator, it: nat, ghost trades: seq<Trade>,
                  ghost whole: Outcome, ghost refs: seq<Order>, ghost prices: seq<Price>,
                  ghost k: nat, ghost vals: seq<OrderData>,
                  ghost price: Price, ghost queue: seq<Order>, ghost tail: seq<Level>)
    returns (trade: Trade, ghost k': nat, ghost vals': seq<OrderData>, ghost queue': seq<Order>)
    requires it == 0 && queue != [] && inc.remaining > 0
    requires AtFront(whole, inc, table, ids, refs, prices, k, vals, trades, price, queue, tail)
    modifies inc`remaining, inc`status, table`levels, ids, RefSet(refs)`remaining, RefSet(refs)`status
    ensures AtFront(whole, inc, table, ids, refs, prices, k', vals', trades + [trade], price, queue', tail)
    ensures ids.current == old(ids.current) + 1
    ensures |queue'| < |queue| || (queue' == queue && inc.remaining < old(inc.remaining))
  {
    HoldsPop(refs, prices, k, price, queue, tail);
    ghost var o := inc.Data();
    ghost var q, t, id;
    q, vals', k', t, id := LoopStep(whole, o, vals, k, trades, ids.current);
    trade := MatchFrontOf(inc, table, ids, it, o, q, t, id, refs, k, vals, refs[k], price, queue, tail);
    queue' := if k' > k then queue[1..] else queue;
  }

  /** The inner loop: trades with the orders of the front level, oldest first. */
  method MatchLevel(inc: Order, table: BookSide, ids: TradeIDGenerator, it: nat, trades0: seq<Trade>,
                    ghost whole: Outcome, ghost refs: seq<Order>, ghost prices: seq<Price>,
                    ghost k0: nat, ghost vals0: seq<OrderData>,
                    ghost price: Price, ghost queue0: seq<Order>, ghost tail: seq<Level>)
    returns (trades: seq<Trade>, ghost k: nat, ghost vals: seq<OrderData>, ghost queue: seq<Order>)
    requires it == 0
    requires AtFront(whole, inc, table, ids, refs, prices, k0, vals0, trades0, price, queue0, tail)
    modifies inc`remaining, inc`status, table`levels, ids, RefSet(refs)`remaining, RefSet(refs)`status
    ensures AtFront(whole, inc, table, ids, refs, prices, k, vals, trades, price, queue, tail)
    ensures queue == [] || inc.remaining == 0
    ensures ids.current - |trades| == old(ids.current) - |trades0|
  {
    trades, k, vals, queue := trades0, k0, vals0, queue0;
    while table.levels[it].orders != [] && inc.remaining > 0
      invariant AtFront(whole, inc, table, ids, refs, prices, k, vals, trades, price, queue, tail)
      invariant ids.current - |trades| == old(ids.current) - |trades0|
      decreases |queue|, inc.remaining
    {
      var trade;
      trade, k, vals, queue := MatchOne(inc, table, ids, it, trades, whole, refs, prices, k, vals, price, queue, tail);
      trades := trades + [trade];
    }
  }

  /** Between two levels: position `it` is the front, unless the incoming order is filled. */
  ghost predicate Between(whole: Outcome, inc: Order, table: BookSide, ids: TradeIDGenerator,
                          refs: seq<Order>, prices: seq<Price>, k: nat, vals: seq<OrderData>, trades: seq<Trade>, it: nat)
    reads inc, table, ids, refs
  {
    && it <= |table.levels| && (it > 0 ==> inc.remaining == 0)
    && inc !in refs && NoDuplicates(refs)
    && Shaped(table.side, table.levels) && Holds(table.levels, refs, prices, k)
    && Progress(whole, inc, ids, refs, k, vals, trades)
    && forall i | 0 <= i < |refs| :: refs[i].price == prices[i]
  }

  /** Erases the level at `it` if it is empty and steps over it otherwise. */
  method EraseOrStep(table: BookSide, it: nat, ghost refs: seq<Order>, ghost prices: seq<Price>, ghost k: nat,
                     ghost price: Price, ghost queue: seq<Order>, ghost tail: seq<Level>)
    returns (it': nat)
    requires it == 0 && FrontIs(table.side, table.levels, price, queue, tail) && Holds(table.levels, refs, prices, k)
    modifies table`levels
    ensures Shaped(table.side, table.levels) && Holds(table.levels, refs, prices, k)
    ensures it' <= |table.levels| && |table.levels| - it' == |tail| && (it' == 0 <==> queue == [])
  {
    if table.levels[it].orders == [] {
      HoldsErase(refs, prices, k, price, tail);
      table.levels := table.levels[..it] + table.levels[it + 1..];
      assert table.levels == tail;
      it' := it;
    } else {
      FrontShaped(table.side, table.levels, price, queue, tail);
      it' := it + 1;
    }
  }

  /** One iteration of the outer loop: match with the level at `it`, then erase it if it is
      empty and step over it otherwise. */
  method MatchAt(inc: Order, table: BookSide, ids: TradeIDGenerator, it: nat, trades0: seq<Trade>,
                 ghost whole: Outcome, ghost refs: seq<Order>, ghost prices: seq<Price>, ghost k0: nat, ghost vals0: seq<OrderData>)
    returns (it': nat, trades: seq<Trade>, ghost k: nat, ghost vals: seq<OrderData>)
    requires it < |table.levels| && inc.remaining > 0 && Crosses(inc.Data(), table.levels[it].price)
    requires Between(whole, inc, table, ids, refs, prices, k0, vals0, trades0, it)
    modifies inc`remaining, inc`status, table`levels, ids, RefSet(refs)`remaining, RefSet(refs)`status
    ensures Between(whole, inc, table, ids, refs, prices, k, vals, trades, it')
    ensures |table.levels| - it' < old(|table.levels|) - it
    ensures ids.current - |trades| == old(ids.current) - |trades0|
  {
    FrontOf(table.side, table.levels);
    ghost var price, tail := table.levels[it].price, table.levels[1..];
    ghost var queue;
    trades, k, vals, queue := MatchLevel(inc, table, ids, it, trades0, whole, refs, prices, k0, vals0, price, table.levels[it].orders, tail);
    it' := EraseOrStep(table, it, refs, prices, k, price, queue, tail);
  }

  /** When the loops stop, the match is complete. */
  lemma {:induction false} LoopsDone(whole: Outcome, inc: Order, table: BookSide, ids: TradeIDGenerator,
                  refs: seq<Order>, prices: seq<Price>, k: nat, vals: seq<OrderData>, trades: seq<Trade>, it: nat)
    requires Between(whole, inc, table, ids, refs, prices, k, vals, trades, it)
    requires it >= |table.levels| || inc.remaining == 0 || !Crosses(inc.Data(), table.levels[it].price)
    ensures table.Valid() && Flat(table.levels) == refs[k..]
    ensures whole == Outcome(inc.Data(), table.Data(), Datas(refs[..k]), trades)
  {
    HoldsIsPriced(table.levels, refs, prices, k);
    assert vals[k..] == Datas(refs[k..]);
    assert vals[..k] == Datas(refs[..k]);
    if inc.remaining > 0 && it < |table.levels| {
      FrontOf(table.side, table.levels);
      assert vals[k..][0].price == table.levels[it].price;
    }
    FillIsOver(inc.Data(), vals[k..], ids.current);
  }

  /** The nested matching loops of the source: levels from the best price on, orders of a
      level from the oldest on, each level erased when it is empty. */
  method MatchLevels(inc: Order, table: BookSide, ids: TradeIDGenerator)
    returns (trades: seq<Trade>, ghost k: nat)
    requires table.Valid() && table.side == Opposite(inc.side) && inc !in Flat(table.levels)
    modifies inc`remaining, inc`status, table`levels, ids
    modifies RefSet(Flat(table.levels))`remaining
    modifies RefSet(Flat(table.levels))`status
    ensures table.Valid()
    ensures k <= |old(Flat(table.levels))| && Flat(table.levels) == old(Flat(table.levels))[k..]
    ensures Fill(old(inc.Data()), old(table.Data()), old(ids.current))
         == Outcome(inc.Data(), table.Data(), Datas(old(Flat(table.levels))[..k]), trades)
    ensures ids.current == old(ids.current) + |trades|
  {
    ghost var refs, prices := Flat(table.levels), Keys(table.levels);
    ghost var vals := Datas(refs);
    ghost var whole := Fill(inc.Data(), vals, ids.current);
    k := 0;
    trades := [];
    assert vals[..0] == [] && vals[0..] == vals;
    var it: nat := 0;
    while it < |table.levels| && inc.remaining > 0
      invariant Between(whole, inc, table, ids, refs, prices, k, vals, trades, it)
      invariant ids.current == old(ids.current) + |trades|
      decreases |table.levels| - it
    {
      if inc.otype == Limit {
        if inc.side == Buy {
          if inc.price < table.levels[it].price { break; }
        } else {
          if inc.price > table.levels[it].price { break; }
        }
      }
      it, trades, k, vals := MatchAt(inc, table, ids, it, trades, whole, refs, prices, k, vals);
    }
    LoopsDone(whole, inc, table, ids, refs, prices, k, vals, trades, it);
  }

  /** The status of the incoming order once the loops are done; the k orders filled and the
      side are other objects. */
  method SetFinalStatus(inc: Order, table: BookSide, ghost refs: seq<Order>, ghost k: nat)
    requires table.Valid() && k <= |refs| && inc !in refs && Flat(table.levels) == refs[k..]
    modifies inc`status
    ensures inc.Data() == Finish(old(inc.Data()))
    ensures table.Valid() && table.Data() == old(table.Data()) && Datas(refs[..k]) == old(Datas(refs[..k]))
  {
    assert inc !in refs[..k] && inc !in refs[k..];
    if inc.remaining == 0 {
      inc.status := Filled;
    } else if inc.otype == Market && inc.original == inc.remaining {
      inc.status := Cancelled;
    }
  }

  /** The matcher on one side of the book: the loops, then the final status. */
  method MatchTable(inc: Order, table: BookSide, ids: TradeIDGenerator)
    returns (trades: seq<Trade>, ghost k: nat)
    requires table.Valid() && table.side == Opposite(inc.side) && inc !in Flat(table.levels)
    modifies inc`remaining, inc`status, table`levels, ids
    modifies RefSet(Flat(table.levels))`remaining
    modifies RefSet(Flat(table.levels))`status
    ensures table.Valid()
    ensures k <= |old(Flat(table.levels))| && Flat(table.levels) == old(Flat(table.levels))[k..]
    ensures Match(old(inc.Data()), old(table.Data()), old(ids.current))
         == Outcome(inc.Data(), table.Data(), Datas(old(Flat(table.levels))[..k]), trades)
    ensures ids.current == old(ids.current) + |trades|
  {
    ghost var refs := Flat(table.levels);
    trades, k := MatchLevels(inc, table, ids);
    SetFinalStatus(inc, table, refs, k);
  }

  lemma {:induction false} FillIsOver(inc: OrderData, rest: seq<OrderData>, lastId: TradeId)
    requires inc.remaining == 0 || rest == [] || !Crosses(inc, rest[0].price)
    ensures Fill(inc, rest, lastId) == Outcome(inc, rest, [], [])
  {
  }
}
