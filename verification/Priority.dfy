/** Time priority: orders that rest never overtake each other, and an order that joins the book
    queues behind everyone priced at least as well, in one command and over whole runs. */
module Priority {
  import opened Orders
  import opened Matching
  import opened PriceTime
  import opened Engine
  import opened Invariants
  import opened TradeLoops
  import opened Reachable
  import opened Runs
  import opened Guarantees
  import opened Accounts
  import opened Ledger

  /** x rests ahead of y. */
  predicate Before(s: seq<OrderData>, x: OrderId, y: OrderId) {
    exists i, j | 0 <= i < j < |s| :: s[i].id == x && s[j].id == y
  }

  lemma {:induction false} InsertKeepsOrder(side: Side, s: seq<OrderData>, o: OrderData, x: OrderId, y: OrderId)
    requires Sorted(side, s) && Before(s, x, y)
    ensures Before(Insert(side, s, o), x, y)
  {
    var k := InsertPosition(side, s, o);
    var t := Insert(side, s, o);
    var i, j :| 0 <= i < j < |s| && s[i].id == x && s[j].id == y;
    AddsOneAt(s, t, o, k, if i < k then i else i + 1);
    AddsOneAt(s, t, o, k, if j < k then j else j + 1);
    assert t[if i < k then i else i + 1].id == x && t[if j < k then j else j + 1].id == y;
  }

  lemma {:induction false} RemoveKeepsOrder(s: seq<OrderData>, id: OrderId, x: OrderId, y: OrderId)
    requires Before(s, x, y) && x != id && y != id
    ensures Before(Remove(s, id), x, y)
  {
    if HasId(s, id) {
      var k := RemovePosition(s, id);
      var t := Remove(s, id);
      var i, j :| 0 <= i < j < |s| && s[i].id == x && s[j].id == y;
      var i', j' := if i < k then i else i - 1, if j < k then j else j - 1;
      assert i' < j' && t[i'] == s[i];
      assert t[j'] == s[j];
    } else {
      RemoveMissing(s, id);
    }
  }

  /** Any suffix of the queue, up to changes inside the orders. */
  lemma {:induction false} SuffixKeepsOrder(s: seq<OrderData>, rest: seq<OrderData>, k: nat, x: OrderId, y: OrderId)
    requires DistinctIds(s) && k + |rest| == |s|
    requires forall i | 0 <= i < |rest| :: rest[i].id == s[k + i].id
    requires Before(s, x, y) && HasId(rest, x)
    ensures Before(rest, x, y)
  {
    var i, j :| 0 <= i < j < |s| && s[i].id == x && s[j].id == y;
    var h :| 0 <= h < |rest| && rest[h].id == x;
    assert s[k + h].id == s[i].id;
    assert rest[j - k].id == s[k + (j - k)].id;
  }

  lemma {:induction false} RestIds(o: OrderData, s: seq<OrderData>, lastId: TradeId)
    ensures var m := Match(o, s, lastId);
      && |m.consumed| + |m.rest| == |s|
      && forall i | 0 <= i < |m.rest| :: m.rest[i].id == s[|m.consumed| + i].id
  {
    var out := Fill(o, s, lastId);
    FillLeavesSuffix(o, s, lastId);
    forall i | 0 <= i < |out.rest| ensures out.rest[i].id == s[|out.consumed| + i].id {
      assert SameOrder(out.rest[i], s[|out.consumed| + i]);
    }
  }

  /** A match takes orders from the front only. */
  lemma {:induction false} MatchKeepsOrder(o: OrderData, s: seq<OrderData>, lastId: TradeId, x: OrderId, y: OrderId)
    requires DistinctIds(s) && Before(s, x, y) && HasId(Match(o, s, lastId).rest, x)
    ensures Before(Match(o, s, lastId).rest, x, y)
  {
    var m := Match(o, s, lastId);
    RestIds(o, s, lastId);
    SuffixKeepsOrder(s, m.rest, |m.consumed|, x, y);
  }

  /** Where the two sides stand once the trades of a command are handled. */
  lemma {:induction false} SidesAfterTrades(j: Job, record: bool)
    requires j.Job? && Working(j.state, j.order)
    ensures var e2 := AfterTrades(j, record);
      && SideOf(e2, j.order.side) == SideOf(j.state, j.order.side)
      && SideOf(e2, Opposite(j.order.side)) == MatchIn(j).rest
      && MatchIn(j).incoming.side == j.order.side
  {
    LoopEffect(j.state, j.order, record);
    FillConserves(j.order, SideOf(j.state, Opposite(j.order.side)), j.state.lastTradeId);
  }

  /** Does the command take an order off the book on purpose? */
  predicate Targets(c: Command, id: OrderId) {
    match c
    case Submit(o) => o.id == id
    case Cancel(cid) => cid == id
    case Modify(mid, _, _) => mid == id
  }

  lemma {:induction false} JobSides(e: State, c: Command, side: Side, x: OrderId, y: OrderId)
    requires Inv(e) && JobOf(e, c).Job? && Before(SideOf(e, side), x, y) && !Targets(c, x) && !Targets(c, y)
    ensures Before(SideOf(JobOf(e, c).state, side), x, y)
  {
    if c.Modify? {
      TakeOffKeepsOrder(e, c.id, side, x, y);
    }
  }

  lemma {:induction false} TakeOffKeepsOrder(e: State, id: OrderId, side: Side, x: OrderId, y: OrderId)
    requires Before(SideOf(e, side), x, y) && x != id && y != id
    ensures Before(SideOf(TakeOff(e, id), side), x, y)
  {
    RemoveKeepsOrder(SideOf(e, side), id, x, y);
  }

  lemma {:induction false} JobKeepsOrder(j: Job, record: bool, side: Side, x: OrderId, y: OrderId)
    requires j.Job? && Working(j.state, j.order) && Before(SideOf(j.state, side), x, y)
    requires HasId(SideOf(AfterTrades(j, record), side), x)
    ensures var e2 := AfterTrades(j, record);
      && Before(SideOf(e2, side), x, y)
      && Before(SideOf(Rest(e2, MatchIn(j).incoming), side), x, y)
  {
    SidesAfterTrades(j, record);
    var e2 := AfterTrades(j, record);
    if side == j.order.side {
      InsertKeepsOrder(side, SideOf(e2, side), MatchIn(j).incoming, x, y);
    } else {
      MatchKeepsOrder(j.order, SideOf(j.state, side), j.state.lastTradeId, x, y);
    }
  }

  /** Two resting orders that a command does not target keep their order as long as the
      first of them still rests; if it was ahead, the other one still rests too. */
  lemma {:induction false} TimePriority(e: State, c: Command, side: Side, x: OrderId, y: OrderId)
    requires Inv(e) && Admissible(e, c) && !Targets(c, x) && !Targets(c, y)
    requires Before(SideOf(e, side), x, y) && HasId(SideOf(Step(e, c), side), x)
    ensures Before(SideOf(Step(e, c), side), x, y)
  {
    if JobOf(e, c).Job? {
      var e' := PlacedState(e, c);
      MatchPriority(e, c, e', side, x, y);
    } else {
      PriorityWithoutMatch(e, c, side, x, y);
    }
  }

  /** The outcome of a command that matches, without the steps that led to it. */
  lemma {:induction false} PlacedState(e: State, c: Command) returns (e': State)
    requires Inv(e) && Admissible(e, c) && JobOf(e, c).Job?
    ensures e' == Step(e, c)
    ensures var j := JobOf(e, c);
      && MatchIn(j).incoming.id == j.order.id
      && e' == if Stays(j) then Rest(AfterTrades(j, c.Submit?), MatchIn(j).incoming)
               else Drop(AfterTrades(j, c.Submit?), j.order.id)
  {
    StepPlaces(e, c);
    e' := Step(e, c);
  }

  lemma {:induction false} PriorityWithoutMatch(e: State, c: Command, side: Side, x: OrderId, y: OrderId)
    requires !JobOf(e, c).Job? && !Targets(c, x) && !Targets(c, y) && Before(SideOf(e, side), x, y)
    ensures Before(SideOf(Step(e, c), side), x, y)
  {
    if c.Cancel? {
      TakeOffKeepsOrder(e, c.id, side, x, y);
    }
  }

  lemma {:induction false} MatchPriority(e: State, c: Command, e': State, side: Side, x: OrderId, y: OrderId)
    requires Inv(e) && Admissible(e, c) && !Targets(c, x) && !Targets(c, y) && JobOf(e, c).Job?
    requires var j := JobOf(e, c);
      && MatchIn(j).incoming.id == j.order.id
      && e' == if Stays(j) then Rest(AfterTrades(j, c.Submit?), MatchIn(j).incoming)
               else Drop(AfterTrades(j, c.Submit?), j.order.id)
    requires Before(SideOf(e, side), x, y) && HasId(SideOf(e', side), x)
    ensures Before(SideOf(e', side), x, y)
  {
    var j := JobOf(e, c);
    JobSides(e, c, side, x, y);
    JobWorks(e, c);
    JobPriority(j, c.Submit?, side, x, y);
  }

  lemma {:induction false} JobPriority(j: Job, record: bool, side: Side, x: OrderId, y: OrderId)
    requires j.Job? && Working(j.state, j.order) && MatchIn(j).incoming.id == j.order.id
    requires Before(SideOf(j.state, side), x, y) && x != j.order.id
    requires var e2 := AfterTrades(j, record);
      HasId(SideOf(if Stays(j) then Rest(e2, MatchIn(j).incoming) else Drop(e2, j.order.id), side), x)
    ensures var e2 := AfterTrades(j, record);
      Before(SideOf(if Stays(j) then Rest(e2, MatchIn(j).incoming) else Drop(e2, j.order.id), side), x, y)
  {
    SidesAfterTrades(j, record);
    if Stays(j) && side == j.order.side {
      JobStays(j, record, side, x);
    }
    JobKeepsOrder(j, record, side, x, y);
  }

  lemma {:induction false} JobStays(j: Job, record: bool, side: Side, x: OrderId)
    requires j.Job? && Working(j.state, j.order) && side == j.order.side && x != j.order.id
    requires MatchIn(j).incoming.id == j.order.id
    requires HasId(SideOf(Rest(AfterTrades(j, record), MatchIn(j).incoming), side), x)
    ensures HasId(SideOf(AfterTrades(j, record), side), x)
  {
    SidesAfterTrades(j, record);
    var s := SideOf(j.state, side);
    var t := Insert(side, s, MatchIn(j).incoming);
    var k := InsertPosition(side, s, MatchIn(j).incoming);
    var i :| 0 <= i < |t| && t[i].id == x;
    AddsOneAt(s, t, MatchIn(j).incoming, k, i);
    assert s[if i < k then i else i - 1].id == x;
  }

  /** The order a command puts on the book stands behind every order priced at least as
      well, in front of all worse ones. This is how a modified order loses its place. */
  lemma {:induction false} JoinsBehind(e: State, c: Command) returns (k: nat)
    requires Inv(e) && Admissible(e, c) && JobOf(e, c).Job? && Stays(JobOf(e, c))
    ensures var o := MatchIn(JobOf(e, c)).incoming; var s := SideOf(JobOf(e, c).state, o.side);
      && SideOf(Step(e, c), o.side) == Insert(o.side, s, o)
      && InsertsAt(o.side, s, o, k)
  {
    var j := JobOf(e, c);
    JobWorks(e, c);
    StepPlaces(e, c);
    SidesAfterTrades(j, c.Submit?);
    var o := MatchIn(j).incoming;
    k := InsertPosition(o.side, SideOf(j.state, o.side), o);
  }

  // ---------------------------------------------------------------- over runs

  /** Nothing joins a side but the order of the command. */
  lemma {:induction false} OnlyItsOrderJoins(e: State, c: Command, side: Side, x: OrderId)
    requires Inv(e) && Admissible(e, c) && !Targets(c, x) && HasId(SideOf(Step(e, c), side), x)
    ensures HasId(SideOf(e, side), x)
  {
    if JobOf(e, c).Job? {
      var e' := PlacedState(e, c);
      JobWorks(e, c);
      OnlyItsOrderPlaced(JobOf(e, c), c.Submit?, side, x);
      if c.Modify? {
        TakeOffOnlyRemoves(e, c.id, side, x);
      }
    } else if c.Cancel? {
      TakeOffOnlyRemoves(e, c.id, side, x);
    }
  }

  lemma {:induction false} TakeOffOnlyRemoves(e: State, id: OrderId, side: Side, x: OrderId)
    ensures HasId(SideOf(TakeOff(e, id), side), x) ==> HasId(SideOf(e, side), x)
  {
    RemoveOnlyRemoves(SideOf(e, side), id, x);
  }

  lemma {:induction false} RemoveOnlyRemoves(s: seq<OrderData>, id: OrderId, x: OrderId)
    ensures HasId(Remove(s, id), x) ==> HasId(s, x)
  {
    if HasId(s, id) {
      var k := RemovePosition(s, id);
      var t := Remove(s, id);
      if HasId(t, x) {
        var i :| 0 <= i < |t| && t[i].id == x;
        assert s[if i < k then i else i + 1].id == x;
      }
    } else {
      RemoveMissing(s, id);
    }
  }

  lemma {:induction false} MatchOnlyRemoves(o: OrderData, s: seq<OrderData>, lastId: TradeId, x: OrderId)
    requires HasId(Match(o, s, lastId).rest, x)
    ensures HasId(s, x)
  {
    var m := Match(o, s, lastId);
    RestIds(o, s, lastId);
    var i :| 0 <= i < |m.rest| && m.rest[i].id == x;
    assert s[|m.consumed| + i].id == x;
  }

  lemma {:induction false} OnlyItsOrderPlaced(j: Job, record: bool, side: Side, x: OrderId)
    requires j.Job? && Working(j.state, j.order) && MatchIn(j).incoming.id == j.order.id && x != j.order.id
    requires var e2 := AfterTrades(j, record);
      HasId(SideOf(if Stays(j) then Rest(e2, MatchIn(j).incoming) else Drop(e2, j.order.id), side), x)
    ensures HasId(SideOf(j.state, side), x)
  {
    SidesAfterTrades(j, record);
    if side != j.order.side {
      MatchOnlyRemoves(j.order, SideOf(j.state, side), j.state.lastTradeId, x);
    } else if Stays(j) {
      JobStays(j, record, side, x);
    }
  }

  /** In a match that trades with the later of two resting orders, the earlier one is filled. */
  lemma {:induction false} EarlierFillsFirst(e: State, o: OrderData, x: OrderId, y: OrderId)
    requires Working(e, o) && Before(SideOf(e, Opposite(o.side)), x, y)
    requires TradedBy(MatchOf(e, o).trades, y) > 0
    ensures x in AfterMatch(e, o).store && AfterMatch(e, o).store[x].remaining == 0
  {
    var s := SideOf(e, Opposite(o.side));
    var i, j :| 0 <= i < j < |s| && s[i].id == x && s[j].id == y;
    assert s[j] in s;
    TradedByResting(o, s, e.lastTradeId, j);
    FillTakesPrefix(o, s, e.lastTradeId);
    FilledAtPosition(e, o, i);
  }

  /** Orders on the matching order's own side do not trade. */
  lemma {:induction false} OwnSideRests(e: State, o: OrderData, y: OrderId)
    requires Working(e, o) && HasId(SideOf(e, o.side), y)
    ensures TradedBy(MatchOf(e, o).trades, y) == 0
  {
    var own, s := SideOf(e, o.side), SideOf(e, Opposite(o.side));
    var i :| 0 <= i < |own| && own[i].id == y;
    assert own[i] in own;
    forall k | 0 <= k < |s| ensures s[k].id != y {
      assert s[k] in s;
      if o.side == Buy { SidesShareNoId(e, own[i], s[k]); } else { SidesShareNoId(e, s[k], own[i]); }
    }
    FillTradesInOrder(o, s, e.lastTradeId);
    TradesNone(MatchOf(e, o).trades, y);
  }

  /** If the later order trades in a command, the earlier one does not rest any more. */
  lemma {:induction false} LaterTradesEarlierGone(e: State, c: Command, side: Side, x: OrderId, y: OrderId)
    requires Inv(e) && Admissible(e, c) && !Targets(c, x) && !Targets(c, y)
    requires Before(SideOf(e, side), x, y) && TradedBy(TradesOf(e, c), y) > 0
    ensures !HasId(SideOf(Step(e, c), side), x)
  {
    var j := JobOf(e, c);
    JobWorks(e, c);
    JobSides(e, c, side, x, y);
    if j.order.side == side {
      OwnSideRests(j.state, j.order, y);
    }
    EarlierFillsFirst(j.state, j.order, x, y);
    FilledIsGone(e, c, side, x);
  }

  /** An order that its match filled does not rest when the command is over. */
  lemma {:induction false} FilledIsGone(e: State, c: Command, side: Side, x: OrderId)
    requires Inv(e) && Admissible(e, c) && JobOf(e, c).Job?
    requires var after := AfterMatch(JobOf(e, c).state, JobOf(e, c).order).store; x in after && after[x].remaining == 0
    ensures !HasId(SideOf(Step(e, c), side), x)
  {
    StepKeeps(e, c);
    var e' := Step(e, c);
    if HasId(SideOf(e', side), x) {
      RestsOnOneSide(e', side, x);
      OnBookIffRemaining(e', x);
      StepStore(e, c, x);
    }
  }

  predicate Untargeted(cs: seq<Command>, from: nat, id: OrderId) {
    forall m | from <= m < |cs| :: !Targets(cs[m], id)
  }

  /** The order has traded everything it was granted. */
  predicate Exhausted(cs: seq<Command>, id: OrderId) {
    FilledSince(cs, id) == Granted(cs, id)
  }

  lemma {:induction false} UntargetedGoesOn(e: State, c: Command, id: OrderId)
    requires Inv(e) && !Targets(c, id)
    ensures !Restarts(e, c, id) && !CutsShort(e, c, id)
  {
  }

  /** An exhausted order that nobody targets stays exhausted. */
  lemma {:induction false} StaysExhausted(cs: seq<Command>, id: OrderId)
    requires FreshRun(cs) && cs != [] && !Targets(cs[|cs| - 1], id) && Exhausted(cs[..|cs| - 1], id)
    ensures Exhausted(cs, id)
  {
    FreshPrefix(cs);
    UntargetedGoesOn(Run(cs[..|cs| - 1]), cs[|cs| - 1], id);
    NoOrderOvertrades(cs, id);
  }

  /** A resting order that no longer rests, although nobody targeted it, is exhausted. */
  lemma {:induction false} GoneIsExhausted(cs: seq<Command>, side: Side, id: OrderId)
    requires FreshRun(cs) && cs != [] && !Targets(cs[|cs| - 1], id)
    requires HasId(SideOf(Run(cs[..|cs| - 1]), side), id) && !HasId(SideOf(Run(cs), side), id)
    ensures Exhausted(cs, id)
  {
    var before, c := cs[..|cs| - 1], cs[|cs| - 1];
    FreshPrefix(cs);
    UntargetedGoesOn(Run(before), c, id);
    NoOrderOvertrades(before, id);
    NoOrderOvertrades(cs, id);
    RestsOnOneSide(Run(before), side, id);
    RunKeepsInv(cs);
    if id in Run(cs).store {
      OnBookIffRemaining(Run(cs), id);
      if HasId(SideOf(Run(cs), Opposite(side)), id) {
        OnlyItsOrderJoins(Run(before), c, Opposite(side), id);
      }
    }
  }

  lemma {:induction false} RestsOnOneSide(e: State, side: Side, id: OrderId)
    requires Inv(e) && HasId(SideOf(e, side), id)
    ensures id in e.store && !HasId(SideOf(e, Opposite(side)), id)
  {
    var s := SideOf(e, side);
    var i :| 0 <= i < |s| && s[i].id == id;
    assert s[i] in s;
    OnBookIffRemaining(e, id);
  }

  /** First come, first served, over whole runs. Of two orders that once rested one behind the
      other and that no later command targets, the one behind trades only when the one ahead
      has traded everything; until then it stays behind. */
  lemma {:induction false} FirstComeFirstServed(cs: seq<Command>, k: nat, side: Side, x: OrderId, y: OrderId)
    requires FreshRun(cs) && k <= |cs| && Before(SideOf(Run(cs[..k]), side), x, y)
    requires Untargeted(cs, k, x) && Untargeted(cs, k, y)
    ensures Exhausted(cs, x) || (Before(SideOf(Run(cs), side), x, y) && FilledSince(cs, y) == FilledSince(cs[..k], y))
  {
    if k == |cs| {
      assert cs[..k] == cs;
    } else {
      var before, c := cs[..|cs| - 1], cs[|cs| - 1];
      assert before[..k] == cs[..k];
      FreshPrefix(cs);
      FirstComeFirstServed(before, k, side, x, y);
      if Exhausted(before, x) {
        StaysExhausted(cs, x);
      } else {
        ServedNext(cs, side, x, y);
      }
    }
  }

  lemma {:induction false} ServedNext(cs: seq<Command>, side: Side, x: OrderId, y: OrderId)
    requires FreshRun(cs) && cs != [] && !Targets(cs[|cs| - 1], x) && !Targets(cs[|cs| - 1], y)
    requires Before(SideOf(Run(cs[..|cs| - 1]), side), x, y)
    ensures Exhausted(cs, x)
         || (Before(SideOf(Run(cs), side), x, y) && FilledSince(cs, y) == FilledSince(cs[..|cs| - 1], y))
  {
    var before, c := cs[..|cs| - 1], cs[|cs| - 1];
    FreshPrefix(cs);
    if HasId(SideOf(Run(cs), side), x) {
      TimePriority(Run(before), c, side, x, y);
      UntargetedGoesOn(Run(before), c, y);
      if TradedBy(TradesOf(Run(before), c), y) > 0 {
        LaterTradesEarlierGone(Run(before), c, side, x, y);
      }
    } else {
      GoneIsExhausted(cs, side, x);
    }
  }

  /** The order that joins the book stands behind an order that rests at least as well priced. */
  lemma {:induction false} QueuesBehind(e: State, c: Command, x: OrderData)
    requires Inv(e) && Admissible(e, c) && JobOf(e, c).Job? && Stays(JobOf(e, c))
    requires var j := JobOf(e, c); x in SideOf(j.state, j.order.side) && !Better(j.order.side, j.order.price, x.price)
    ensures var j := JobOf(e, c); Before(SideOf(Step(e, c), j.order.side), x.id, j.order.id)
  {
    var j := JobOf(e, c);
    var o, s := MatchIn(j).incoming, SideOf(j.state, j.order.side);
    var k := JoinsBehind(e, c);
    MatchedTerms(j);
    BehindInserted(o.side, s, o, k, x);
  }

  lemma {:induction false} MatchedTerms(j: Job)
    requires j.Job?
    ensures var o := MatchIn(j).incoming; o.id == j.order.id && o.side == j.order.side && o.price == j.order.price
  {
    FillConserves(j.order, SideOf(j.state, Opposite(j.order.side)), j.state.lastTradeId);
  }

  lemma {:induction false} BehindInserted(side: Side, s: seq<OrderData>, o: OrderData, k: nat, x: OrderData)
    requires InsertsAt(side, s, o, k) && x in s && !Better(side, o.price, x.price)
    ensures Before(Insert(side, s, o), x.id, o.id)
  {
    var i :| 0 <= i < |s| && s[i] == x;
    var t := Insert(side, s, o);
    assert i < k && t[i] == s[i] && t[k] == o;
  }

  lemma {:induction false} FreshUpTo(cs: seq<Command>, n: nat)
    requires FreshRun(cs) && n <= |cs|
    ensures FreshRun(cs[..n])
  {
  }

  lemma {:induction false} ReadyAt(cs: seq<Command>, i: nat)
    requires FreshRun(cs) && i < |cs|
    ensures Inv(Run(cs[..i])) && Admissible(Run(cs[..i]), cs[i]) && Run(cs[..i + 1]) == Step(Run(cs[..i]), cs[i])
  {
    FreshUpTo(cs, i + 1);
    FreshPrefix(cs[..i + 1]);
    assert cs[..i + 1][..i] == cs[..i];
  }

  /** Time priority over runs: an order that joins the book when another one already rests there
      at least as well priced, trades from the book only when that one has traded everything, as
      long as neither is cancelled or modified. */
  lemma {:induction false} TimePriorityOverRuns(cs: seq<Command>, i: nat, x: OrderData)
    requires FreshRun(cs) && i < |cs|
    requires var j := JobOf(Run(cs[..i]), cs[i]);
      j.Job? && Stays(j) && x in SideOf(j.state, j.order.side) && !Better(j.order.side, j.order.price, x.price)
      && Untargeted(cs, i + 1, x.id) && Untargeted(cs, i + 1, j.order.id)
    ensures var y := JobOf(Run(cs[..i]), cs[i]).order.id;
      FilledSince(cs, y) != FilledSince(cs[..i + 1], y) ==> FilledSince(cs, x.id) == Granted(cs, x.id)
  {
    var j := JobOf(Run(cs[..i]), cs[i]);
    ReadyAt(cs, i);
    QueuesBehind(Run(cs[..i]), cs[i], x);
    FirstComeFirstServed(cs, i + 1, j.order.side, x.id, j.order.id);
  }
}
