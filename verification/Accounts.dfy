/** The account of every order over whole runs: what it was granted, what it has traded and
    what is left of it. */
module Accounts {
  import opened Orders
  import opened Matching
  import opened PriceTime
  import opened Engine
  import opened Invariants
  import opened TradeLoops
  import opened Reachable
  import opened Runs
  import opened Guarantees

  // ---------------------------------------------------------------- the account

  /** Does this command start the order's account afresh? */
  predicate Restarts(e: State, c: Command, id: OrderId) {
    JobOf(e, c).Job? && JobOf(e, c).order.id == id
  }

  /** What the order has traded since it was accepted or last modified. */
  function FilledSince(cs: seq<Command>, id: OrderId): nat {
    if cs == [] then 0
    else
      var before, c := cs[..|cs| - 1], cs[|cs| - 1];
      TradedBy(TradesOf(Run(before), c), id) + if Restarts(Run(before), c, id) then 0 else FilledSince(before, id)
  }

  /** The quantity of the order's acceptance or last modify; 0 for an order never accepted. */
  function Granted(cs: seq<Command>, id: OrderId): nat {
    if cs == [] then 0
    else
      var before, c := cs[..|cs| - 1], cs[|cs| - 1];
      if Restarts(Run(before), c, id) then JobOf(Run(before), c).order.original else Granted(before, id)
  }

  /** The command ends the order with something left of it: it cancels it while it rests, or
      accepts it as a market order for which the other side does not hold enough. */
  predicate CutsShort(e: State, c: Command, id: OrderId) {
    if Restarts(e, c, id) then
      var j := JobOf(e, c);
      j.order.otype == Market && Available(j.order, SideOf(j.state, Opposite(j.order.side))) < j.order.remaining
    else
      c == Cancel(id) && (HasId(e.bids, id) || HasId(e.asks, id))
  }

  /** Has that happened since the order was accepted or last modified? */
  predicate CutShort(cs: seq<Command>, id: OrderId) {
    cs != [] &&
    var before, c := cs[..|cs| - 1], cs[|cs| - 1];
    CutsShort(Run(before), c, id) || (!Restarts(Run(before), c, id) && CutShort(before, id))
  }

  /** An order in the store has what it was granted and has not traded; one that has left has
      traded all of it, unless it was cut short, and then less. */
  predicate Settled(e: State, id: OrderId, granted: nat, filled: nat, cutShort: bool) {
    if id in e.store then
      !cutShort && e.store[id].original == granted && e.store[id].remaining + filled == granted
    else
      filled <= granted && (filled == granted <==> !cutShort)
  }

  // ---------------------------------------------------------------- one command

  lemma {:induction false} NoTradesUnstored(e: State, o: OrderData, id: OrderId)
    requires Working(e, o) && id !in e.store
    ensures TradedBy(MatchOf(e, o).trades, id) == 0
  {
    var s := SideOf(e, Opposite(o.side));
    FillTradesInOrder(o, s, e.lastTradeId);
    forall i | 0 <= i < |s| ensures s[i].id != id {
      assert s[i] in s;
    }
    TradesNone(MatchOf(e, o).trades, id);
  }

  /** An order that leaves the store after its trades has nothing left. */
  lemma {:induction false} LeavesFilled(e: State, o: OrderData, record: bool, id: OrderId)
    requires Working(e, o) && id in e.store
    ensures var e1 := AfterMatch(e, o); var e2 := TradeLoop(e1, MatchOf(e, o).trades, record);
      && id in e1.store
      && (if id in e2.store then e2.store[id] == e1.store[id] else e1.store[id].remaining == 0)
  {
    GoneIsFilled(e, o);
    LoopEffect(e, o, record);
    EachOrderConserves(e, o, id);
  }

  /** What the command's own order has traded at its end, and what became of it. */
  lemma {:induction false} OwnOrderSettles(e: State, c: Command)
    requires Inv(e) && Admissible(e, c) && JobOf(e, c).Job?
    ensures var j := JobOf(e, c); var id := j.order.id;
      Settled(Step(e, c), id, j.order.original, TradedBy(TradesOf(e, c), id), CutsShort(e, c, id))
  {
    JobWorks(e, c);
    OwnOrderTrades(JobOf(e, c));
    OwnOrderPlaced(e, c);
  }

  /** The order trades what it wants or what there is, and keeps the rest. */
  lemma {:induction false} OwnOrderTrades(j: Job)
    requires j.Job? && Working(j.state, j.order)
    ensures var o, m := j.order, MatchIn(j); var s := SideOf(j.state, Opposite(o.side));
      && TradedBy(m.trades, o.id) == Min(o.remaining, Available(o, s))
      && m.incoming.remaining + TradedBy(m.trades, o.id) == o.remaining && m.incoming.original == o.original
  {
    IncomingConserves(j.state, j.order);
    AfterMatchHolds(j.state, j.order);
    MatchConserves(j.state, j.order);
  }

  /** It ends in the store exactly if it is a limit order with something left. */
  lemma {:induction false} OwnOrderPlaced(e: State, c: Command)
    requires Inv(e) && Admissible(e, c) && JobOf(e, c).Job?
    ensures var j := JobOf(e, c); var id := j.order.id;
      if Stays(j) then id in Step(e, c).store && Step(e, c).store[id] == MatchIn(j).incoming
      else id !in Step(e, c).store
  {
    var j := JobOf(e, c);
    JobWorks(e, c);
    StepPlaces(e, c);
    if Stays(j) {
      IncomingKept(j, c.Submit?);
    }
    PlacedStore(AfterTrades(j, c.Submit?), MatchIn(j).incoming, Stays(j), Step(e, c));
  }

  /** The store once an order is placed on the book or forgotten. */
  lemma {:induction false} PlacedStore(e2: State, o: OrderData, stays: bool, e': State)
    requires e' == if stays then Rest(e2, o) else Drop(e2, o.id)
    ensures if stays then e'.store == e2.store else o.id !in e'.store
    ensures forall id | id != o.id ::
      (id in e'.store <==> id in e2.store) && (id in e2.store ==> e'.store[id] == e2.store[id])
  {
  }

  /** Preparing a command and placing its order leave every other order as it is. */
  lemma {:induction false} OthersPlaced(e: State, c: Command, id: OrderId)
    requires Inv(e) && Admissible(e, c) && JobOf(e, c).Job? && id != JobOf(e, c).order.id
    ensures var e2 := AfterTrades(JobOf(e, c), c.Submit?);
      (id in Step(e, c).store <==> id in e2.store) && (id in e2.store ==> Step(e, c).store[id] == e2.store[id])
  {
    var j := JobOf(e, c);
    StepPlaces(e, c);
    PlacedStore(AfterTrades(j, c.Submit?), MatchIn(j).incoming, Stays(j), Step(e, c));
  }

  lemma {:induction false} OthersPrepared(e: State, c: Command, id: OrderId)
    requires JobOf(e, c).Job? && id != JobOf(e, c).order.id && id in e.store
    ensures id in JobOf(e, c).state.store && JobOf(e, c).state.store[id] == e.store[id]
  {
  }

  lemma {:induction false} OtherOrderTrades(j: Job, record: bool, id: OrderId)
    requires j.Job? && Working(j.state, j.order) && id in j.state.store
    ensures var o := j.state.store[id]; var e2 := AfterTrades(j, record); var traded := TradedBy(MatchIn(j).trades, id);
      if id in e2.store then e2.store[id].original == o.original && o.remaining == e2.store[id].remaining + traded
      else o.remaining == traded
  {
    EachOrderConserves(j.state, j.order, id);
    LeavesFilled(j.state, j.order, record, id);
  }

  /** Any other stored order, across a command that matches. */
  lemma {:induction false} OtherOrderSettles(e: State, c: Command, id: OrderId, granted: nat, filled: nat)
    requires Inv(e) && Admissible(e, c) && JobOf(e, c).Job? && id != JobOf(e, c).order.id && id in e.store
    requires Settled(e, id, granted, filled, false)
    ensures Settled(Step(e, c), id, granted, filled + TradedBy(TradesOf(e, c), id), false)
  {
    JobWorks(e, c);
    OthersPrepared(e, c, id);
    OtherOrderTrades(JobOf(e, c), c.Submit?, id);
    OthersPlaced(e, c, id);
  }

  /** Any other order that is not stored takes no part. */
  lemma {:induction false} AbsentOrderSettles(e: State, c: Command, id: OrderId)
    requires Inv(e) && Admissible(e, c) && id !in e.store && !Restarts(e, c, id)
    ensures id !in Step(e, c).store && TradedBy(TradesOf(e, c), id) == 0 && !CutsShort(e, c, id)
  {
    OffBookUnstored(e, id);
    var j := JobOf(e, c);
    if j.Job? {
      JobWorks(e, c);
      NoTradesUnstored(j.state, j.order, id);
    }
    if id in Step(e, c).store {
      StepStore(e, c, id);
    }
  }

  lemma {:induction false} OffBookUnstored(e: State, id: OrderId)
    requires BookOk(e) && id !in e.store
    ensures !HasId(e.bids, id) && !HasId(e.asks, id)
  {
    assert forall i | 0 <= i < |e.bids| :: e.bids[i] in e.bids;
    assert forall i | 0 <= i < |e.asks| :: e.asks[i] in e.asks;
  }

  /** A command without a match: only a cancellation of a resting order changes anything. */
  lemma {:induction false} CancelSettles(e: State, id: OrderId, granted: nat, filled: nat)
    requires Inv(e) && id in e.store && Settled(e, id, granted, filled, false)
    ensures Settled(CancelOrder(e, id), id, granted, filled, HasId(e.bids, id) || HasId(e.asks, id))
  {
    OnBookIffRemaining(e, id);
  }

  lemma {:induction false} UnmatchedSettles(e: State, c: Command, id: OrderId, granted: nat, filled: nat)
    requires Inv(e) && JobOf(e, c).NoMatch? && id in e.store && Settled(e, id, granted, filled, false)
    ensures Settled(Step(e, c), id, granted, filled, CutsShort(e, c, id))
  {
    if c == Cancel(id) {
      CancelSettles(e, id, granted, filled);
    }
  }

  // ---------------------------------------------------------------- conservation over runs

  /** Over every run: no order ever trades more than the quantity of its acceptance or last
      modify. What is left of a stored order is exactly what it has not traded, and an order
      that has left the store has traded all of it, unless and only unless it was cut short. */
  lemma {:induction false} NoOrderOvertrades(cs: seq<Command>, id: OrderId)
    requires FreshRun(cs)
    ensures FilledSince(cs, id) <= Granted(cs, id)
    ensures Settled(Run(cs), id, Granted(cs, id), FilledSince(cs, id), CutShort(cs, id))
  {
    if cs != [] {
      var before, c := cs[..|cs| - 1], cs[|cs| - 1];
      var e := Run(before);
      FreshPrefix(cs);
      NoOrderOvertrades(before, id);
      if Restarts(e, c, id) {
        OwnOrderSettles(e, c);
      } else if id !in e.store {
        AbsentOrderSettles(e, c, id);
      } else if JobOf(e, c).Job? {
        OtherOrderSettles(e, c, id, Granted(before, id), FilledSince(before, id));
      } else {
        UnmatchedSettles(e, c, id, Granted(before, id), FilledSince(before, id));
      }
    }
  }

  /** For every order in the store, original minus remaining is the sum of its trades since
      acceptance or its last modify. */
  lemma {:induction false} ConservationOverRuns(cs: seq<Command>, id: OrderId)
    requires FreshRun(cs) && id in Run(cs).store
    ensures Run(cs).store[id].original == Run(cs).store[id].remaining + FilledSince(cs, id)
  {
    NoOrderOvertrades(cs, id);
  }
}
