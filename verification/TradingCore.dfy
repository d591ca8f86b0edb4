/** Routing commands to the instruments' workers and letting the workers take turns. One turn is
    as small as one trade, so that two matches can draw trade ids in any interleaving. */
module TradingCore {
  import opened Orders
  import opened Matching
  import opened Engine
  import opened Invariants
  import opened Reachable
  import opened Runs
  import opened BookObjects
  import opened Partitions

  const CAPACITY: nat := 262144

  /** A worker between two trades of a match: `vals` is the opposite side as it stood, with
      everything before k already filled. */
  datatype Work =
    | Idle
    | Busy(command: Command, order: OrderData, inc: OrderData, vals: seq<OrderData>, k: nat, trades: seq<Trade>)

  /** One instrument. `accepted`, `finished` and `made` are its history: commands queued,
      commands completed, trades made. */
  datatype Partition = Partition(
    queue: seq<Command>,
    state: State,
    work: Work,
    accepted: seq<Command>,
    finished: seq<Command>,
    made: seq<Trade>)

  /** `owners` tells for each trade id drawn so far, in order, which partition drew it. */
  datatype Core = Core(parts: seq<Partition>, owners: seq<nat>)

  /** Only new orders name their instrument. */
  datatype Request = Request(instrument: nat, command: Command)

  const NEW_PARTITION := Partition([], EMPTY, Idle, [], [], [])

  // ---------------------------------------------------------------- routing

  /** The first partition at or behind i whose store holds the order, or their number. */
  function HolderFrom(parts: seq<Partition>, id: OrderId, i: nat): (r: nat)
    requires i <= |parts|
    ensures i <= r <= |parts|
    ensures forall j | i <= j < r :: id !in parts[j].state.store
    ensures r < |parts| ==> id in parts[r].state.store
    decreases |parts| - i
  {
    if i == |parts| || id in parts[i].state.store then i else HolderFrom(parts, id, i + 1)
  }

  function Route(parts: seq<Partition>, r: Request): (i: nat)
    requires r.instrument < |parts|
    ensures i <= |parts|
  {
    match r.command
    case Submit(o) => r.instrument
    case Cancel(id) => HolderFrom(parts, id, 0)
    case Modify(id, price, quantity) => HolderFrom(parts, id, 0)
  }

  /** A full queue drops the command. */
  function Push(p: Partition, c: Command): Partition {
    if |p.queue| < CAPACITY then p.(queue := p.queue + [c], accepted := p.accepted + [c]) else p
  }

  function Routed(core: Core, r: Request): Core
    requires r.instrument < |core.parts|
  {
    var i := Route(core.parts, r);
    if i == |core.parts| then core else core.(parts := core.parts[i := Push(core.parts[i], r.command)])
  }

  // ---------------------------------------------------------------- a worker's turn

  /** The next step of the match is a trade. */
  predicate Trades(w: Work) {
    w.Busy? && w.inc.remaining > 0 && w.k < |w.vals| && Crosses(w.inc, w.vals[w.k].price)
  }

  /** Takes the next command and prepares it; commands without a match are done at once. */
  function Begin(p: Partition): Partition
    requires p.queue != []
  {
    var c := p.queue[0];
    var j := JobOf(p.state, c);
    if j.NoMatch? then
      p.(queue := p.queue[1..], state := Step(p.state, c), finished := p.finished + [c])
    else
      p.(queue := p.queue[1..], state := j.state,
         work := Busy(c, j.order, j.order, SideOf(j.state, Opposite(j.order.side)), 0, []))
  }

  function TradeOnce(p: Partition, id: TradeId): Partition
    requires Trades(p.work)
  {
    var w := p.work;
    var q := Min(w.inc.remaining, w.vals[w.k].remaining);
    var t := MakeTrade(id, w.inc, w.vals[w.k], q);
    p.(work := w.(inc := Advance(w.inc, q),
                  vals := w.vals[w.k := Traded1(w.vals[w.k], q)],
                  k := if q == w.vals[w.k].remaining then w.k + 1 else w.k,
                  trades := w.trades + [t]),
       made := p.made + [t])
  }

  function OutcomeOf(w: Work): Outcome
    requires w.Busy? && w.k <= |w.vals|
  {
    Outcome(Finish(w.inc), w.vals[w.k..], w.vals[..w.k], w.trades)
  }

  function End(p: Partition): Partition
    requires p.work.Busy? && p.work.k <= |p.work.vals|
  {
    p.(state := Conclude(p.state, p.work.order, OutcomeOf(p.work), p.work.command.Submit?),
       work := Idle,
       finished := p.finished + [p.work.command])
  }

  function Turn(p: Partition, nextId: TradeId): Partition {
    if p.work.Idle? then if p.queue == [] then p else Begin(p)
    else if Trades(p.work) then TradeOnce(p, nextId)
    else if p.work.k <= |p.work.vals| then End(p)
    else p
  }

  /** Worker i takes a turn; a trade draws the next id of the shared counter. */
  function Turned(core: Core, i: nat): Core
    requires i < |core.parts|
  {
    var p := core.parts[i];
    Core(core.parts[i := Turn(p, |core.owners| + 1)],
         if Trades(p.work) then core.owners + [i] else core.owners)
  }

  // ---------------------------------------------------------------- each partition runs alone

  /** The match so far and what it still has to do make up the match that the command would
      have made by itself. */
  predicate OnTheWay(w: Work, side: seq<OrderData>)
    requires w.Busy?
  {
    && w.k <= |w.vals|
    && EraseOutcome(Fill(w.order, side, 0)) == EraseOutcome(After(w.vals[..w.k], w.trades, Fill(w.inc, w.vals[w.k..], 0)))
  }

  /** Up to trade ids, the partition is where its own finished commands alone would have
      brought it, plus what its current command has done so far. */
  predicate Alone(p: Partition) {
    var e := Run(p.finished);
    match p.work
    case Idle => Alike(p.state, e)
    case Busy(c, order, inc, vals, k, trades) =>
      && JobOf(e, c).Job? && JobOf(e, c).order == order && Alike(p.state, JobOf(e, c).state)
      && OnTheWay(p.work, SideOf(p.state, Opposite(order.side)))
  }

  /** No command is lost, repeated or overtaken. */
  predicate InOrder(p: Partition) {
    p.accepted == p.finished + (if p.work.Busy? then [p.work.command] else []) + p.queue
  }

  lemma {:induction false} RunNext(cs: seq<Command>, c: Command)
    ensures Run(cs + [c]) == Step(Run(cs), c)
  {
    assert (cs + [c])[..|cs + [c]| - 1] == cs;
  }

  lemma {:induction false} BeginStaysInOrder(p: Partition)
    requires InOrder(p) && p.work.Idle? && p.queue != []
    ensures InOrder(Begin(p))
  {
    assert p.queue == [p.queue[0]] + p.queue[1..];
    assert p.finished + [] == p.finished;
  }

  lemma {:induction false} EndStaysInOrder(p: Partition)
    requires InOrder(p) && p.work.Busy? && p.work.k <= |p.work.vals|
    ensures InOrder(End(p))
  {
    assert p.finished + [p.work.command] + [] == p.finished + [p.work.command];
  }

  /** At its beginning a match has everything still to do. */
  lemma {:induction false} BeginsOnTheWay(c: Command, order: OrderData, vals: seq<OrderData>)
    ensures OnTheWay(Busy(c, order, order, vals, 0, []), vals)
  {
    assert vals[..0] == [] && vals[0..] == vals;
    var m := Fill(order, vals, 0);
    assert [] + m.consumed == m.consumed && [] + m.trades == m.trades;
  }

  lemma {:induction false} BeginStaysAlone(p: Partition)
    requires Alone(p) && p.work.Idle? && p.queue != []
    ensures Alone(Begin(p))
  {
    var c, e := p.queue[0], Run(p.finished);
    RunNext(p.finished, c);
    JobAlike(p.state, e, c);
    var j := JobOf(p.state, c);
    if j.Job? {
      BeginsOnTheWay(c, j.order, SideOf(j.state, Opposite(j.order.side)));
    }
  }

  lemma {:induction false} TradeStaysOnTheWay(p: Partition, id: TradeId)
    requires Trades(p.work) && OnTheWay(p.work, SideOf(p.state, Opposite(p.work.order.side)))
    ensures OnTheWay(TradeOnce(p, id).work, SideOf(p.state, Opposite(p.work.order.side)))
  {
    var w, w' := p.work, TradeOnce(p, id).work;
    var done := After(w.vals[..w.k], w.trades, Fill(w.inc, w.vals[w.k..], 0));
    NextTrade(done, w.inc, w.vals, w.k, w.trades, MakeTrade(id, w.inc, w.vals[w.k], Min(w.inc.remaining, w.vals[w.k].remaining)));
    assert EraseOutcome(done) == EraseOutcome(After(w'.vals[..w'.k], w'.trades, Fill(w'.inc, w'.vals[w'.k..], 0)));
  }

  /** One more trade, under any id. */
  lemma {:induction false} NextTrade(whole: Outcome, inc: OrderData, vals: seq<OrderData>, k: nat, trades: seq<Trade>, u: Trade)
    requires k < |vals| && inc.remaining > 0 && Crosses(inc, vals[k].price)
    requires whole == After(vals[..k], trades, Fill(inc, vals[k..], 0))
    requires EraseTrade(u) == EraseTrade(MakeTrade(1, inc, vals[k], Min(inc.remaining, vals[k].remaining)))
    ensures var q := Min(inc.remaining, vals[k].remaining);
      var vals', k' := vals[k := Traded1(vals[k], q)], if q == vals[k].remaining then k + 1 else k;
      EraseOutcome(whole) == EraseOutcome(After(vals'[..k'], trades + [u], Fill(Advance(inc, q), vals'[k'..], 0)))
  {
    var q, vals', k', t, _ := LoopStep(whole, inc, vals, k, trades, 0);
    var m, m' := Fill(Advance(inc, q), vals'[k'..], 1), Fill(Advance(inc, q), vals'[k'..], 0);
    FillAlike(Advance(inc, q), vals'[k'..], 1, 0);
    AfterAlike(vals'[..k'], trades, t, u, m, m');
  }

  /** What is done so far matters only up to trade ids. */
  lemma {:induction false} AfterAlike(done: seq<OrderData>, ts: seq<Trade>, t: Trade, u: Trade, m: Outcome, w: Outcome)
    requires EraseTrade(t) == EraseTrade(u) && EraseOutcome(m) == EraseOutcome(w)
    ensures EraseOutcome(After(done, ts + [t], m)) == EraseOutcome(After(done, ts + [u], w))
  {
    EraseTradesAppend(ts + [t], m.trades);
    EraseTradesAppend(ts + [u], w.trades);
    EraseTradesAppend(ts, [t]);
    EraseTradesAppend(ts, [u]);
    assert EraseTrades([t]) == EraseTrades([u]);
    assert EraseTrades(m.trades) == EraseOutcome(m).trades == EraseOutcome(w).trades == EraseTrades(w.trades);
  }

  lemma {:induction false} FinishedMatch(w: Work, side: seq<OrderData>, lastId: TradeId)
    requires w.Busy? && OnTheWay(w, side) && !Trades(w)
    ensures EraseOutcome(OutcomeOf(w)) == EraseOutcome(Match(w.order, side, lastId))
  {
    var rest := w.vals[w.k..];
    assert rest != [] ==> rest[0] == w.vals[w.k];
    assert Fill(w.inc, rest, 0) == Outcome(w.inc, rest, [], []);
    assert w.vals[..w.k] + [] == w.vals[..w.k] && w.trades + [] == w.trades;
    FillAlike(w.order, side, 0, lastId);
  }

  lemma {:induction false} EndStaysAlone(p: Partition)
    requires Alone(p) && p.work.Busy? && !Trades(p.work)
    ensures Alone(End(p))
  {
    var w, e := p.work, Run(p.finished);
    var j := JobOf(e, w.command);
    RunNext(p.finished, w.command);
    StepConcludes(e, w.command);
    assert SideOf(p.state, Opposite(w.order.side)) == SideOf(j.state, Opposite(w.order.side));
    FinishedMatch(w, SideOf(p.state, Opposite(w.order.side)), j.state.lastTradeId);
    ConcludeAlike(p.state, j.state, w.order, OutcomeOf(w), MatchIn(j), w.command.Submit?);
  }

  lemma {:induction false} TurnStaysAlone(p: Partition, id: TradeId)
    requires Alone(p) && InOrder(p)
    ensures Alone(Turn(p, id)) && InOrder(Turn(p, id))
  {
    if p.work.Idle? {
      if p.queue != [] {
        BeginStaysAlone(p);
        BeginStaysInOrder(p);
      }
    } else if Trades(p.work) {
      TradeStaysOnTheWay(p, id);
    } else {
      EndStaysAlone(p);
      EndStaysInOrder(p);
    }
  }

  // ---------------------------------------------------------------- trade ids

  /** The ids a partition has drawn, oldest first. */
  function Drawn(owners: seq<nat>, i: nat): seq<TradeId> {
    if owners == [] then []
    else Drawn(owners[..|owners| - 1], i) + if owners[|owners| - 1] == i then [|owners|] else []
  }

  function IdsOf(ts: seq<Trade>): seq<TradeId> {
    seq(|ts|, k requires 0 <= k < |ts| => ts[k].id)
  }

  /** The trades a partition made carry exactly the ids it drew, in that order, and whatever it
      recorded or is still matching is among them. */
  predicate Numbered(p: Partition, owners: seq<nat>, i: nat) {
    && IdsOf(p.made) == Drawn(owners, i)
    && (forall t | t in p.state.recorded :: t in p.made)
    && (p.work.Busy? ==> forall t | t in p.work.trades :: t in p.made)
  }

  lemma {:induction false} DrawnNext(owners: seq<nat>, j: nat, i: nat)
    ensures Drawn(owners + [j], i) == Drawn(owners, i) + if j == i then [|owners| + 1] else []
  {
    assert (owners + [j])[..|owners|] == owners;
  }

  /** The ids of a partition are exactly the positions it owns, in increasing order. */
  lemma {:induction false} DrawnAre(owners: seq<nat>, i: nat)
    ensures forall id :: id in Drawn(owners, i) <==> 1 <= id <= |owners| && owners[id - 1] == i
    ensures forall k, l | 0 <= k < l < |Drawn(owners, i)| :: Drawn(owners, i)[k] < Drawn(owners, i)[l]
  {
    if owners != [] {
      var before := owners[..|owners| - 1];
      DrawnAre(before, i);
      forall k, l | 0 <= k < l < |Drawn(owners, i)| ensures Drawn(owners, i)[k] < Drawn(owners, i)[l] {
        assert Drawn(owners, i)[k] == Drawn(before, i)[k] && Drawn(before, i)[k] in Drawn(before, i);
      }
    }
  }

  lemma {:induction false} LoopRecords(e: State, ts: seq<Trade>, record: bool)
    ensures TradeLoop(e, ts, record).recorded == if record then e.recorded + ts else e.recorded
    decreases |ts|
  {
    if ts != [] {
      var e1 := if record then e.(recorded := e.recorded + [ts[0]]) else e;
      LoopRecords(SettleTrade(e1, ts[0]), ts[1..], record);
      assert e.recorded + [ts[0]] + ts[1..] == e.recorded + ts;
    }
  }

  lemma {:induction false} TradeNumbers(p: Partition, owners: seq<nat>, i: nat)
    requires Numbered(p, owners, i) && Trades(p.work)
    ensures Numbered(TradeOnce(p, |owners| + 1), owners + [i], i)
  {
    DrawnNext(owners, i, i);
    assert IdsOf(TradeOnce(p, |owners| + 1).made) == IdsOf(p.made) + [|owners| + 1];
  }

  lemma {:induction false} EndNumbers(p: Partition, owners: seq<nat>, i: nat)
    requires Numbered(p, owners, i) && p.work.Busy? && p.work.k <= |p.work.vals|
    ensures Numbered(End(p), owners, i)
  {
    var m, isNew := OutcomeOf(p.work), p.work.command.Submit?;
    LoopRecords(Matched(p.state, p.work.order, m), m.trades, isNew);
    assert End(p).state.recorded == if isNew then p.state.recorded + p.work.trades else p.state.recorded;
  }

  lemma {:induction false} BeginNumbers(p: Partition, owners: seq<nat>, i: nat)
    requires Numbered(p, owners, i) && p.work.Idle? && p.queue != []
    ensures Numbered(Begin(p), owners, i)
  {
  }

  lemma {:induction false} TurnNumbers(p: Partition, owners: seq<nat>, i: nat)
    requires Numbered(p, owners, i)
    ensures Numbered(Turn(p, |owners| + 1), if Trades(p.work) then owners + [i] else owners, i)
  {
    if p.work.Idle? {
      if p.queue != [] {
        BeginNumbers(p, owners, i);
      }
    } else if Trades(p.work) {
      TradeNumbers(p, owners, i);
    } else if p.work.k <= |p.work.vals| {
      EndNumbers(p, owners, i);
    }
  }

  // ---------------------------------------------------------------- over all interleavings

  datatype Action = Request(request: Request) | WorkerTurn(worker: nat)

  predicate Allowed(a: Action, n: nat) {
    match a
    case Request(r) => r.instrument < n
    case WorkerTurn(i) => i < n
  }

  function Start(n: nat): Core {
    Core(seq(n, _ => NEW_PARTITION), [])
  }

  /** Any interleaving of arriving commands and worker turns on n instruments. */
  function Interleave(n: nat, actions: seq<Action>): (core: Core)
    requires forall a | a in actions :: Allowed(a, n)
    ensures |core.parts| == n
  {
    if actions == [] then Start(n)
    else
      var before := Interleave(n, actions[..|actions| - 1]);
      var last := actions[|actions| - 1];
      assert last in actions && Allowed(last, n);
      match last
      case Request(r) => Routed(before, r)
      case WorkerTurn(i) => Turned(before, i)
  }

  predicate Sound(core: Core) {
    forall i | 0 <= i < |core.parts| ::
      Alone(core.parts[i]) && InOrder(core.parts[i]) && Numbered(core.parts[i], core.owners, i)
  }

  lemma {:induction false} PushKeeps(p: Partition, c: Command, owners: seq<nat>, i: nat)
    requires Alone(p) && InOrder(p) && Numbered(p, owners, i)
    ensures Alone(Push(p, c)) && InOrder(Push(p, c)) && Numbered(Push(p, c), owners, i)
  {
    var busy := if p.work.Busy? then [p.work.command] else [];
    assert p.finished + busy + p.queue + [c] == p.finished + busy + (p.queue + [c]);
  }

  lemma {:induction false} TurnedIsSound(core: Core, i: nat)
    requires Sound(core) && i < |core.parts|
    ensures Sound(Turned(core, i))
  {
    var core' := Turned(core, i);
    TurnStaysAlone(core.parts[i], |core.owners| + 1);
    TurnNumbers(core.parts[i], core.owners, i);
    forall j | 0 <= j < |core'.parts|
      ensures Alone(core'.parts[j]) && InOrder(core'.parts[j]) && Numbered(core'.parts[j], core'.owners, j)
    {
      if j != i {
        DrawnNext(core.owners, i, j);
      }
    }
  }

  lemma {:induction false} InterleavingIsSound(n: nat, actions: seq<Action>)
    requires forall a | a in actions :: Allowed(a, n)
    ensures Sound(Interleave(n, actions))
  {
    if actions == [] {
      assert Erase(EMPTY) == Erase(Run([]));
    } else {
      var before, last := Interleave(n, actions[..|actions| - 1]), actions[|actions| - 1];
      InterleavingIsSound(n, actions[..|actions| - 1]);
      assert last in actions;
      match last
      case Request(r) =>
        var i := Route(before.parts, r);
        if i < n {
          PushKeeps(before.parts[i], r.command, before.owners, i);
        }
      case WorkerTurn(i) => TurnedIsSound(before, i);
    }
  }

  /** Whatever the interleaving: an idle partition's book, store, rows, recorded trades and
      published events are, up to trade ids, those of running by itself exactly the commands it
      accepted and has finished, in their order. */
  lemma {:induction false} PartitionsRunAlone(n: nat, actions: seq<Action>, i: nat)
    requires (forall a | a in actions :: Allowed(a, n)) && i < n
    ensures var p := Interleave(n, actions).parts[i];
      && p.finished <= p.accepted
      && (p.work.Idle? ==> Alike(p.state, Run(p.finished)) && p.accepted == p.finished + p.queue)
  {
    InterleavingIsSound(n, actions);
    AloneAndInOrder(Interleave(n, actions).parts[i]);
  }

  lemma {:induction false} AloneAndInOrder(p: Partition)
    requires Alone(p) && InOrder(p)
    ensures p.finished <= p.accepted
    ensures p.work.Idle? ==> Alike(p.state, Run(p.finished)) && p.accepted == p.finished + p.queue
  {
    var busy := if p.work.Busy? then [p.work.command] else [];
    assert p.finished <= p.finished + busy + p.queue;
    assert p.finished + [] == p.finished;
  }

  // ---------------------------------------------------------------- orders with fresh ids

  predicate Submits(a: Action) {
    a.Request? && a.request.command.Submit?
  }

  function OrderOf(a: Action): OrderData
    requires Submits(a)
  {
    a.request.command.order
  }

  /** What the source's callers guarantee: a submitted order is unfilled, and no order id is
      used twice, on any instrument. */
  predicate FreshActions(actions: seq<Action>) {
    && (forall k | 0 <= k < |actions| && Submits(actions[k]) ::
          OrderOf(actions[k]).remaining == OrderOf(actions[k]).original && OrderOf(actions[k]).status == OrderStatus.New)
    && (forall k, l | 0 <= k < l < |actions| && Submits(actions[k]) && Submits(actions[l]) ::
          OrderOf(actions[k]).id != OrderOf(actions[l]).id)
  }

  /** The order was submitted on this instrument. */
  predicate SentTo(actions: seq<Action>, i: nat, id: OrderId) {
    exists k | 0 <= k < |actions| && Submits(actions[k]) :: actions[k].request.instrument == i && OrderOf(actions[k]).id == id
  }

  /** What a partition has accepted is a fresh run of orders submitted on its instrument. */
  predicate Fed(accepted: seq<Command>, actions: seq<Action>, i: nat) {
    && FreshRun(accepted)
    && forall k | 0 <= k < |accepted| && accepted[k].Submit? :: SentTo(actions, i, accepted[k].order.id)
  }

  lemma {:induction false} SentToLonger(actions: seq<Action>, i: nat, id: OrderId)
    requires actions != [] && SentTo(actions[..|actions| - 1], i, id)
    ensures SentTo(actions, i, id)
  {
    var before := actions[..|actions| - 1];
    var k :| 0 <= k < |before| && Submits(before[k]) && before[k].request.instrument == i && OrderOf(before[k]).id == id;
    assert actions[k] == before[k];
  }

  lemma {:induction false} FedLonger(accepted: seq<Command>, actions: seq<Action>, i: nat)
    requires actions != [] && Fed(accepted, actions[..|actions| - 1], i)
    ensures Fed(accepted, actions, i)
  {
    forall k | 0 <= k < |accepted| && accepted[k].Submit? ensures SentTo(actions, i, accepted[k].order.id) {
      SentToLonger(actions, i, accepted[k].order.id);
    }
  }

  /** The newest order has not been submitted before. */
  lemma {:induction false} NewestIsFresh(actions: seq<Action>, i: nat)
    requires FreshActions(actions) && actions != [] && Submits(actions[|actions| - 1])
    ensures !SentTo(actions[..|actions| - 1], i, OrderOf(actions[|actions| - 1]).id)
    ensures SentTo(actions, actions[|actions| - 1].request.instrument, OrderOf(actions[|actions| - 1]).id)
  {
    var before := actions[..|actions| - 1];
    assert forall k | 0 <= k < |before| :: before[k] == actions[k];
  }

  lemma {:induction false} FedMore(accepted: seq<Command>, actions: seq<Action>, i: nat)
    requires FreshActions(actions) && actions != [] && actions[|actions| - 1].Request?
    requires Fed(accepted, actions[..|actions| - 1], i)
    requires actions[|actions| - 1].request.command.Submit? ==> actions[|actions| - 1].request.instrument == i
    ensures Fed(accepted + [actions[|actions| - 1].request.command], actions, i)
  {
    var c := actions[|actions| - 1].request.command;
    FedLonger(accepted, actions, i);
    if c.Submit? {
      NewestIsFresh(actions, i);
    }
  }

  lemma {:induction false} TurnAcceptsNothing(p: Partition, id: TradeId)
    ensures Turn(p, id).accepted == p.accepted
  {
  }

  lemma {:induction false} FreshShorter(actions: seq<Action>)
    requires FreshActions(actions) && actions != []
    ensures FreshActions(actions[..|actions| - 1])
  {
  }

  lemma {:induction false} AcceptedAreFresh(n: nat, actions: seq<Action>, i: nat)
    requires (forall a | a in actions :: Allowed(a, n)) && FreshActions(actions) && i < n
    ensures Fed(Interleave(n, actions).parts[i].accepted, actions, i)
  {
    if actions != [] {
      var before, last := Interleave(n, actions[..|actions| - 1]), actions[|actions| - 1];
      FreshShorter(actions);
      AcceptedAreFresh(n, actions[..|actions| - 1], i);
      FedLonger(before.parts[i].accepted, actions, i);
      assert last in actions;
      match last
      case WorkerTurn(j) => TurnAcceptsNothing(before.parts[j], |before.owners| + 1);
      case Request(r) =>
        if Route(before.parts, r) == i {
          FedMore(before.parts[i].accepted, actions, i);
        }
    }
  }

  lemma {:induction false} FreshFront(cs: seq<Command>, more: seq<Command>)
    requires FreshRun(cs + more)
    ensures FreshRun(cs)
  {
    assert forall k | 0 <= k < |cs| :: (cs + more)[k] == cs[k];
  }

  /** What a partition's state comes from: its finished commands, and the one at work. */
  lemma {:induction false} RunSoFar(n: nat, actions: seq<Action>, i: nat)
    requires (forall a | a in actions :: Allowed(a, n)) && FreshActions(actions) && i < n
    ensures var p := Interleave(n, actions).parts[i];
      && Alone(p) && FreshRun(p.finished) && Inv(Run(p.finished))
      && (p.work.Busy? ==> FreshRun(p.finished + [p.work.command]) && Admissible(Run(p.finished), p.work.command))
      && (forall c | c in p.finished || (p.work.Busy? && c == p.work.command) :: c in p.accepted)
  {
    InterleavingIsSound(n, actions);
    AcceptedAreFresh(n, actions, i);
    var p := Interleave(n, actions).parts[i];
    var busy := if p.work.Busy? then [p.work.command] else [];
    assert p.accepted == p.finished + busy + p.queue;
    FreshFront(p.finished + busy, p.queue);
    FreshFront(p.finished, busy);
    RunKeepsInv(p.finished);
    if p.work.Busy? {
      assert (p.finished + busy)[..|p.finished|] == p.finished;
      FreshPrefix(p.finished + busy);
    }
  }

  /** Every stored order was submitted on the instrument of the partition that stores it. */
  lemma {:induction false} StoredWereSent(n: nat, actions: seq<Action>, i: nat, id: OrderId)
    requires (forall a | a in actions :: Allowed(a, n)) && FreshActions(actions) && i < n
    requires id in Interleave(n, actions).parts[i].state.store
    ensures SentTo(actions, i, id)
  {
    RunSoFar(n, actions, i);
    AcceptedAreFresh(n, actions, i);
    var p := Interleave(n, actions).parts[i];
    var c := StoredComesFrom(p, id);
    AcceptedWasSent(p.accepted, actions, i, c);
  }

  /** The command that submitted a stored order. */
  lemma {:induction false} StoredComesFrom(p: Partition, id: OrderId) returns (c: Command)
    requires Alone(p) && FreshRun(p.finished) && id in p.state.store
    ensures c in p.finished || (p.work.Busy? && c == p.work.command)
    ensures c.Submit? && c.order.id == id
  {
    RunKeepsInv(p.finished);
    if p.work.Busy? && p.work.command.Submit? && p.work.command.order.id == id {
      c := p.work.command;
    } else {
      assert id in Run(p.finished).store;
      var k :| 0 <= k < |p.finished| && p.finished[k].Submit? && p.finished[k].order.id == id;
      c := p.finished[k];
    }
  }

  lemma {:induction false} AcceptedWasSent(accepted: seq<Command>, actions: seq<Action>, i: nat, c: Command)
    requires Fed(accepted, actions, i) && c in accepted && c.Submit?
    ensures SentTo(actions, i, c.order.id)
  {
    var k :| 0 <= k < |accepted| && accepted[k] == c;
  }

  lemma {:induction false} SentOnce(actions: seq<Action>, i: nat, j: nat, id: OrderId)
    requires FreshActions(actions) && SentTo(actions, i, id) && SentTo(actions, j, id)
    ensures i == j
  {
  }

  /** However the workers interleave, an order is stored in at most one partition: the one it was
      submitted to. So a cancel or modify finds that partition, for as long as it stores the
      order, and none afterwards. */
  lemma {:induction false} OrdersStayHome(n: nat, actions: seq<Action>, i: nat, id: OrderId)
    requires (forall a | a in actions :: Allowed(a, n)) && FreshActions(actions) && i < n && SentTo(actions, i, id)
    ensures var parts := Interleave(n, actions).parts;
      && (forall j | 0 <= j < n && id in parts[j].state.store :: j == i)
      && HolderFrom(parts, id, 0) == if id in parts[i].state.store then i else n
  {
    var parts := Interleave(n, actions).parts;
    forall j | 0 <= j < n && id in parts[j].state.store ensures j == i {
      StoredWereSent(n, actions, j, id);
      SentOnce(actions, i, j, id);
    }
  }

  lemma {:induction false} BookOfAlike(e: State, f: State)
    requires Alike(e, f) && BookOk(f)
    ensures e.bids != [] && e.asks != [] ==> e.bids[0].price < e.asks[0].price
  {
    assert e.bids == f.bids && e.asks == f.asks;
    if e.bids != [] && e.asks != [] {
      assert e.bids[0] in e.bids && e.asks[0] in e.asks;
    }
  }

  /** Nor is any partition's book ever crossed, whatever its worker is at. */
  lemma {:induction false} NoPartitionIsCrossed(n: nat, actions: seq<Action>, i: nat)
    requires (forall a | a in actions :: Allowed(a, n)) && FreshActions(actions) && i < n
    ensures var e := Interleave(n, actions).parts[i].state;
      e.bids != [] && e.asks != [] ==> e.bids[0].price < e.asks[0].price
  {
    RunSoFar(n, actions, i);
    var p := Interleave(n, actions).parts[i];
    var e := Run(p.finished);
    if p.work.Busy? {
      JobWorks(e, p.work.command);
      BookOfAlike(p.state, JobOf(e, p.work.command).state);
    } else {
      BookOfAlike(p.state, e);
    }
  }

  /** Trade ids over all partitions: each id up to the counter is the id of exactly one trade,
      ids of one partition increase in the order of its trades, and recorded trades are among
      them. */
  lemma {:induction false} TradeIdsAreUnique(n: nat, actions: seq<Action>, i: nat, j: nat)
    requires (forall a | a in actions :: Allowed(a, n)) && i < n && j < n
    ensures var core := Interleave(n, actions);
      var ti, tj := core.parts[i].made, core.parts[j].made;
      && (forall k, l | 0 <= k < |ti| && 0 <= l < |tj| :: ti[k].id == tj[l].id ==> i == j && k == l)
      && (forall k, l | 0 <= k < l < |ti| :: ti[k].id < ti[l].id)
      && (forall k | 0 <= k < |ti| :: 1 <= ti[k].id <= |core.owners|)
      && (forall id | 1 <= id <= |core.owners| && core.owners[id - 1] == i :: id in IdsOf(ti))
      && (forall t | t in core.parts[i].state.recorded :: t in ti)
  {
    InterleavingIsSound(n, actions);
    var core := Interleave(n, actions);
    var ti, tj := core.parts[i].made, core.parts[j].made;
    DrawnAre(core.owners, i);
    DrawnAre(core.owners, j);
    assert forall k | 0 <= k < |ti| :: ti[k].id == IdsOf(ti)[k] && IdsOf(ti)[k] in Drawn(core.owners, i);
    assert forall l | 0 <= l < |tj| :: tj[l].id == IdsOf(tj)[l] && IdsOf(tj)[l] in Drawn(core.owners, j);
  }

  // ---------------------------------------------------------------- the object

  class TradingCore {
    const partitions: array<Partition>
    const ids: TradeIDGenerator
    ghost var owners: seq<nat>

    constructor (count: nat)
      ensures Valid() && View() == Start(count)
    {
      var parts := new Partition[count](_ => NEW_PARTITION);
      partitions := parts;
      ids := new TradeIDGenerator();
      owners := [];
      new;
      assert partitions[..] == Start(count).parts;
    }

    ghost predicate Valid()
      reads this, ids
    {
      ids.current == |owners|
    }

    ghost function View(): Core
      reads this, partitions
    {
      Core(partitions[..], owners)
    }

    method FindPartitionForOrder(id: OrderId) returns (found: bool, i: nat)
      ensures found <==> exists j | 0 <= j < partitions.Length :: id in partitions[j].state.store
      ensures i == HolderFrom(partitions[..], id, 0)
      ensures found <==> i < partitions.Length
    {
      i := 0;
      while i < partitions.Length
        invariant i <= partitions.Length
        invariant forall j | 0 <= j < i :: id !in partitions[j].state.store
        invariant HolderFrom(partitions[..], id, 0) == HolderFrom(partitions[..], id, i)
      {
        if id in partitions[i].state.store {
          return true, i;
        }
        i := i + 1;
      }
      found := false;
    }

    method Enqueue(i: nat, c: Command)
      requires i < partitions.Length
      modifies partitions
      ensures partitions[..] == old(partitions[..])[i := Push(old(partitions[i]), c)]
    {
      if |partitions[i].queue| < CAPACITY {
        partitions[i] := partitions[i].(queue := partitions[i].queue + [c], accepted := partitions[i].accepted + [c]);
      }
    }

    method SubmitCommand(r: Request)
      requires Valid() && r.instrument < partitions.Length
      modifies partitions
      ensures Valid() && View() == Routed(old(View()), r)
    {
      match r.command
      case Submit(o) =>
        Enqueue(r.instrument, r.command);
      case Modify(id, price, quantity) =>
        var found, i := FindPartitionForOrder(id);
        if found {
          Enqueue(i, r.command);
        }
      case Cancel(id) =>
        var found, i := FindPartitionForOrder(id);
        if found {
          Enqueue(i, r.command);
        }
    }

    method Work(i: nat)
      requires Valid() && i < partitions.Length
      modifies this`owners, partitions, ids
      ensures Valid() && View() == Turned(old(View()), i)
    {
      var p := partitions[i];
      if Trades(p.work) {
        var id := ids.NextId();
        partitions[i] := TradeOnce(p, id);
        owners := owners + [i];
      } else {
        partitions[i] := Turn(p, 0);
      }
    }
  }
}
