/** Whole runs of commands from the empty book. */
module Runs {
  import opened Orders
  import opened Matching
  import opened PriceTime
  import opened Engine
  import opened Invariants
  import opened Reachable

  function Run(cs: seq<Command>): State {
    if cs == [] then EMPTY else Step(Run(cs[..|cs| - 1]), cs[|cs| - 1])
  }

  /** New orders are unfilled and no order id is used twice. */
  predicate FreshRun(cs: seq<Command>) {
    && (forall i | 0 <= i < |cs| && cs[i].Submit? ::
          cs[i].order.remaining == cs[i].order.original && cs[i].order.status == OrderStatus.New)
    && (forall i, j | 0 <= i < j < |cs| && cs[i].Submit? && cs[j].Submit? :: cs[i].order.id != cs[j].order.id)
  }

  predicate Submitted(cs: seq<Command>, id: OrderId) {
    exists i | 0 <= i < |cs| :: cs[i].Submit? && cs[i].order.id == id
  }

  // ---------------------------------------------------------------- the match of a command

  datatype Job = NoMatch | Job(state: State, order: OrderData)

  /** The match a command starts: the order and the state it is matched in. */
  function JobOf(e: State, c: Command): Job {
    match c
    case Submit(o) => if PreCheck(o, SideOf(e, Opposite(o.side))) then Job(Accept(e, o), o) else NoMatch
    case Cancel(id) => NoMatch
    case Modify(id, price, quantity) =>
      if id in e.store
      then var o := Replaced(e.store[id], price, quantity); Job(Reprice(e, o), o)
      else NoMatch
  }

  function MatchIn(j: Job): Outcome
    requires j.Job?
  {
    MatchOf(j.state, j.order)
  }

  /** The trades a command makes. */
  function TradesOf(e: State, c: Command): seq<Trade> {
    if JobOf(e, c).Job? then MatchIn(JobOf(e, c)).trades else []
  }

  lemma {:induction false} JobWorks(e: State, c: Command)
    requires Inv(e) && Admissible(e, c) && JobOf(e, c).Job?
    ensures var j := JobOf(e, c);
      Working(j.state, j.order) && j.order.remaining == j.order.original && j.order.status == OrderStatus.New
  {
    match c
    case Submit(o) => AcceptWorks(e, o);
    case Modify(id, price, quantity) => ReplaceWorks(e, Replaced(e.store[id], price, quantity));
  }

  /** Does the order of this match join the book when the match is over? */
  predicate Stays(j: Job)
    requires j.Job?
  {
    j.order.otype == Limit && MatchIn(j).incoming.remaining > 0
  }

  function AfterTrades(j: Job, record: bool): State
    requires j.Job?
  {
    TradeLoop(AfterMatch(j.state, j.order), MatchIn(j).trades, record)
  }

  /** A command that matches ends in one of two ways: what is left of a limit order joins
      the book, or the order is forgotten. */
  lemma {:induction false} StepPlaces(e: State, c: Command)
    requires Inv(e) && Admissible(e, c) && JobOf(e, c).Job?
    ensures var j := JobOf(e, c);
      && MatchIn(j).incoming.id == j.order.id
      && Step(e, c) == if Stays(j) then Rest(AfterTrades(j, c.Submit?), MatchIn(j).incoming)
                       else Drop(AfterTrades(j, c.Submit?), j.order.id)
  {
    var j := JobOf(e, c);
    JobWorks(e, c);
    LoopPlaceable(j.state, j.order, c.Submit?);
    if c.Submit? {
      NewPlaceable(j.state, j.order);
      PlaceNewKeeps(AfterTrades(j, true), MatchIn(j).incoming);
    } else {
      PlaceModifiedKeeps(AfterTrades(j, false), MatchIn(j).incoming);
    }
  }

  /** An order that is not filled is still stored behind its trades. */
  lemma {:induction false} IncomingKept(j: Job, record: bool)
    requires j.Job? && Working(j.state, j.order) && MatchIn(j).incoming.remaining > 0
    ensures j.order.id in AfterTrades(j, record).store && AfterTrades(j, record).store[j.order.id] == MatchIn(j).incoming
  {
    AfterLoopKeeps(j.state, j.order, record);
  }

  lemma {:induction false} LoopOnlyForgets(e: State, ts: seq<Trade>, record: bool)
    ensures var e' := TradeLoop(e, ts, record); forall id | id in e'.store :: id in e.store && e'.store[id] == e.store[id]
    decreases |ts|
  {
    if ts != [] {
      var e1 := if record then e.(recorded := e.recorded + [ts[0]]) else e;
      LoopOnlyForgets(SettleTrade(e1, ts[0]), ts[1..], record);
    }
  }

  /** Placing an order on the book or forgetting it adds nothing to the store. */
  lemma {:induction false} PlacingOnlyForgets(e: State, o: OrderData)
    ensures forall id | id in PlaceNew(e, o).store :: id in e.store && PlaceNew(e, o).store[id] == e.store[id]
    ensures forall id | id in PlaceModified(e, o).store :: id in e.store && PlaceModified(e, o).store[id] == e.store[id]
  {
  }

  /** After the match a command only forgets orders. */
  lemma {:induction false} StepStore(e: State, c: Command, id: OrderId)
    requires id in Step(e, c).store
    ensures var j := JobOf(e, c);
      if j.Job? then id in AfterMatch(j.state, j.order).store && Step(e, c).store[id] == AfterMatch(j.state, j.order).store[id]
      else id in e.store && Step(e, c).store[id] == e.store[id]
  {
    var j := JobOf(e, c);
    if j.Job? {
      var after := AfterTrades(j, c.Submit?);
      PlacingOnlyForgets(after, MatchIn(j).incoming);
      assert id in after.store && Step(e, c).store[id] == after.store[id];
      LoopOnlyForgets(AfterMatch(j.state, j.order), MatchIn(j).trades, c.Submit?);
    }
  }

  lemma {:induction false} StepAddsOnlyItsOrder(e: State, c: Command, id: OrderId)
    requires Inv(e) && id in Step(e, c).store
    ensures id in e.store || (c.Submit? && c.order.id == id)
  {
    StepStore(e, c, id);
  }

  lemma {:induction false} SubmittedLonger(cs: seq<Command>, id: OrderId)
    requires cs != [] && Submitted(cs[..|cs| - 1], id)
    ensures Submitted(cs, id)
  {
    var i :| 0 <= i < |cs| - 1 && cs[..|cs| - 1][i].Submit? && cs[..|cs| - 1][i].order.id == id;
    assert cs[i].Submit? && cs[i].order.id == id;
  }

  /** The invariant holds after every run, and only submitted orders are ever stored. */
  lemma {:induction false} RunKeepsInv(cs: seq<Command>)
    requires FreshRun(cs)
    ensures Inv(Run(cs))
    ensures forall id | id in Run(cs).store :: Submitted(cs, id)
  {
    if cs != [] {
      var before, c := cs[..|cs| - 1], cs[|cs| - 1];
      RunKeepsInv(before);
      StepKeeps(Run(before), c);
      forall id | id in Run(cs).store ensures Submitted(cs, id) {
        StepAddsOnlyItsOrder(Run(before), c, id);
        if c.Submit? && c.order.id == id {
        } else {
          SubmittedLonger(cs, id);
        }
      }
    }
  }

  /** In a fresh run the next command always meets the engine's requirements. */
  lemma {:induction false} FreshPrefix(cs: seq<Command>)
    requires FreshRun(cs) && cs != []
    ensures FreshRun(cs[..|cs| - 1])
    ensures Inv(Run(cs[..|cs| - 1])) && Admissible(Run(cs[..|cs| - 1]), cs[|cs| - 1])
  {
    RunKeepsInv(cs[..|cs| - 1]);
  }

  /** The book is never crossed, both sides are in price order without a repeated id, and
      each order rests on its own side with something left. */
  lemma {:induction false} BookNeverCrossed(cs: seq<Command>)
    requires FreshRun(cs)
    ensures var e := Run(cs);
      && (e.bids != [] && e.asks != [] ==> e.bids[0].price < e.asks[0].price)
      && SideOk(Buy, e.bids) && SideOk(Sell, e.asks)
      && DistinctIds(e.bids + e.asks)
  {
    RunKeepsInv(cs);
    var e := Run(cs);
    if e.bids != [] && e.asks != [] {
      assert e.bids[0] in e.bids && e.asks[0] in e.asks;
    }
    forall i, j | 0 <= i < j < |e.bids + e.asks| ensures (e.bids + e.asks)[i].id != (e.bids + e.asks)[j].id {
      if i < |e.bids| <= j {
        SidesShareNoId(e, e.bids[i], e.asks[j - |e.bids|]);
      }
    }
  }

  /** Ownership over whole runs: what the book shows is the store's own order, every stored
      order is Limit, and a stored order rests exactly when something remains of it. */
  lemma {:induction false} OwnershipOverRuns(cs: seq<Command>)
    requires FreshRun(cs)
    ensures var e := Run(cs);
      && Owned(e.store, e.bids) && Owned(e.store, e.asks)
      && (forall id | id in e.store ::
            && e.store[id].id == id && e.store[id].otype == Limit
            && (e.store[id].remaining > 0 <==> HasId(e.bids, id) || HasId(e.asks, id)))
      && e.rows.Keys == e.store.Keys
  {
    RunKeepsInv(cs);
    var e := Run(cs);
    forall id | id in e.store
      ensures e.store[id].remaining > 0 <==> HasId(e.bids, id) || HasId(e.asks, id)
    {
      OnBookIffRemaining(e, id);
    }
  }
}
