/** Bookkeeping per command: what the order table says, and which filled orders the trade loop
    leaves in the store. */
module Ledger {
  import opened Orders
  import opened Matching
  import opened PriceTime
  import opened Engine
  import opened Invariants
  import opened TradeLoops
  import opened Reachable
  import opened Runs
  import opened Guarantees

  // ---------------------------------------------------------------- the order table

  predicate RowAgrees(e: State, id: OrderId) {
    id in e.store && id in e.rows && e.rows[id] == Row(e.store[id].remaining, e.store[id].status)
  }

  /** The table shows the remaining quantity and status of every stored order. */
  predicate RowsAgree(e: State) {
    forall id | id in e.store :: RowAgrees(e, id)
  }

  predicate OtherRowsAgree(e: State, except: OrderId) {
    forall id | id in e.store && id != except :: RowAgrees(e, id)
  }

  lemma {:induction false} JobRowsAgree(e: State, c: Command)
    requires Inv(e) && Admissible(e, c) && RowsAgree(e) && JobOf(e, c).Job?
    ensures RowsAgree(JobOf(e, c).state)
  {
    var j := JobOf(e, c);
    forall id | id in j.state.store ensures RowAgrees(j.state, id) {
      if c.Submit? && id == c.order.id {
        assert id !in e.rows.Keys;
      } else if id in e.store {
        assert RowAgrees(e, id);
      }
    }
  }

  /** A resting order at position k has changed exactly if it traded. */
  lemma {:induction false} ChangedIffTraded(o: OrderData, s: seq<OrderData>, lastId: TradeId, k: nat)
    requires k < |s| && Resting(Opposite(o.side), s)
    ensures var m := Match(o, s, lastId);
      && k + 1 < |Touched(m)|
      && (k >= |m.trades| ==> Touched(m)[k + 1] == s[k])
      && (k < |m.trades| ==> Touched(m)[k + 1].remaining < s[k].remaining)
  {
    TouchedLess(o, s, lastId, k);
    TradesArePositive(o, s, lastId);
    UntradedUnchanged(o, s, lastId, k);
    assert Match(o, s, lastId).trades == Fill(o, s, lastId).trades;
  }

  /** Right after the match a resting order's row agrees unless the order traded. */
  lemma {:induction false} RestingRowAfterMatch(e: State, o: OrderData, k: nat)
    requires Working(e, o) && RowsAgree(e) && k < |SideOf(e, Opposite(o.side))|
    ensures var id := SideOf(e, Opposite(o.side))[k].id; var t := Touched(MatchOf(e, o)); var e1 := AfterMatch(e, o);
      && id != o.id && id in e1.store
      && k + 1 < |t| && e1.store[id] == t[k + 1]
      && (RowAgrees(e1, id) <==> k >= |MatchOf(e, o).trades|)
  {
    var s := SideOf(e, Opposite(o.side));
    assert s[k] in s;
    assert RowAgrees(e, s[k].id) && e.store[s[k].id] == s[k];
    ChangedIffTraded(o, s, e.lastTradeId, k);
    TouchedAt(o, s, e.lastTradeId, k);
    TouchedHeld(e, o, k + 1);
  }

  lemma {:induction false} UntradedUnchanged(o: OrderData, s: seq<OrderData>, lastId: TradeId, k: nat)
    requires k < |s|
    ensures var m := Match(o, s, lastId); |Touched(m)| == |s| + 1 && (k >= |m.trades| ==> Touched(m)[k + 1] == s[k])
  {
    var m := Match(o, s, lastId);
    FillTakesPrefix(o, s, lastId);
    FillTradesInOrder(o, s, lastId);
    if k >= |m.trades| {
      assert Touched(m)[k + 1] == m.rest[k - |m.consumed|];
    }
  }

  /** The loop repairs only the row of the first counterparty of a filled order. */
  lemma {:induction false} RowAfterLoop(e1: State, m: Outcome, record: bool, id: OrderId)
    requires |m.trades| <= |m.consumed| + |m.rest| && id != m.incoming.id
    requires id in e1.store && id in e1.rows && id !in Gone(m)
    ensures var e2 := AfterLoop(e1, m, record);
      id in e2.store &&
      (RowAgrees(e2, id) <==>
        if m.incoming.remaining == 0 && m.trades != [] && id == Counterparty(m, 0).id
        then Row(Counterparty(m, 0).remaining, Counterparty(m, 0).status) == Row(e1.store[id].remaining, e1.store[id].status)
        else RowAgrees(e1, id))
  {
  }

  /** Which resting orders leave the store: those filled by a handled trade. */
  lemma {:induction false} GoneByPosition(o: OrderData, s: seq<OrderData>, lastId: TradeId, k: nat)
    requires k < |s| && DistinctIds(s) && forall x | x in s :: x.id != o.id
    ensures var m := Match(o, s, lastId); s[k].id in Gone(m) <==> k < Handled(m) && k < |m.consumed|
  {
    var m := Match(o, s, lastId);
    MatchPairs(o, s, lastId);
    FillTakesPrefix(o, s, lastId);
    TouchedDistinct(o, s, lastId);
    assert s[k] in s;
    assert forall i | 0 <= i < |m.consumed| :: m.consumed[i].id == s[i].id;
    if m.incoming.remaining > 0 {
      ConsumedIds(m.consumed, s, k);
    }
  }

  lemma {:induction false} ConsumedIds(consumed: seq<OrderData>, s: seq<OrderData>, k: nat)
    requires k < |s| && |consumed| <= |s| && DistinctIds(s)
    requires forall i | 0 <= i < |consumed| :: consumed[i].id == s[i].id
    ensures s[k].id in Ids(consumed) <==> k < |consumed|
  {
    if k < |consumed| {
      assert consumed[k] in consumed;
    }
  }

  /** After the loop a resting order's row disagrees exactly when the order took part in a
      trade that was not handled. */
  lemma {:induction false} RestingRowAfterLoop(e: State, o: OrderData, record: bool, k: nat)
    requires Working(e, o) && RowsAgree(e) && k < |SideOf(e, Opposite(o.side))|
    ensures var m := MatchOf(e, o); var id := SideOf(e, Opposite(o.side))[k].id;
      |m.trades| <= |m.consumed| + |m.rest| &&
      var e2 := AfterLoop(AfterMatch(e, o), m, record);
      && (id in e2.store ==> (RowAgrees(e2, id) <==> !(Handled(m) <= k < |m.trades|)))
      && (Handled(m) <= k < |m.trades| ==> id in e2.store)
  {
    var s, m := SideOf(e, Opposite(o.side)), MatchOf(e, o);
    MatchPairs(o, s, e.lastTradeId);
    SideApart(e, o);
    GoneByPosition(o, s, e.lastTradeId, k);
    if s[k].id !in Gone(m) {
      if k == 0 && m.incoming.remaining == 0 && m.trades != [] {
        FirstRow(e, o, record);
      } else {
        LaterRow(e, o, record, k);
      }
    }
  }

  /** The row of the first counterparty of a filled order is repaired. */
  lemma {:induction false} FirstRow(e: State, o: OrderData, record: bool)
    requires Working(e, o) && RowsAgree(e) && SideOf(e, Opposite(o.side)) != []
    requires var m := MatchOf(e, o);
      m.incoming.remaining == 0 && m.trades != [] && SideOf(e, Opposite(o.side))[0].id !in Gone(m)
    ensures var m := MatchOf(e, o); var id := SideOf(e, Opposite(o.side))[0].id;
      |m.trades| <= |m.consumed| + |m.rest| &&
      var e2 := AfterLoop(AfterMatch(e, o), m, record); id in e2.store && RowAgrees(e2, id)
  {
    var s, m, e1 := SideOf(e, Opposite(o.side)), MatchOf(e, o), AfterMatch(e, o);
    MatchPairs(o, s, e.lastTradeId);
    RestingRowAfterMatch(e, o, 0);
    SideApart(e, o);
    FirstCounterparty(o, s, e.lastTradeId, 0);
    RowIsThere(e, o, s[0].id);
    FillConserves(o, s, e.lastTradeId);
    RowAfterLoop(e1, m, record, s[0].id);
  }

  /** Every other row is left as it was. */
  lemma {:induction false} LaterRow(e: State, o: OrderData, record: bool, k: nat)
    requires Working(e, o) && RowsAgree(e) && k < |SideOf(e, Opposite(o.side))|
    requires var m := MatchOf(e, o);
      !(k == 0 && m.incoming.remaining == 0 && m.trades != []) && SideOf(e, Opposite(o.side))[k].id !in Gone(m)
    ensures var m := MatchOf(e, o); var id := SideOf(e, Opposite(o.side))[k].id;
      |m.trades| <= |m.consumed| + |m.rest| &&
      var e2 := AfterLoop(AfterMatch(e, o), m, record);
      id in e2.store && (RowAgrees(e2, id) <==> k >= |m.trades|)
  {
    var s, m, e1 := SideOf(e, Opposite(o.side)), MatchOf(e, o), AfterMatch(e, o);
    RestingRowAfterMatch(e, o, k);
    RowIsThere(e, o, s[k].id);
    SideApart(e, o);
    NotFirst(o, s, e.lastTradeId, k);
    RowLeftAlone(e1, m, record, s[k].id);
  }

  lemma {:induction false} NotFirst(o: OrderData, s: seq<OrderData>, lastId: TradeId, k: nat)
    requires k < |s| && DistinctIds(s) && s[k].id != o.id
    ensures var m := Match(o, s, lastId);
      |m.trades| <= |m.consumed| + |m.rest| && s[k].id != m.incoming.id
      && (k > 0 && m.trades != [] ==> Counterparty(m, 0).id != s[k].id)
  {
    SameIds(o, s, lastId);
    FillConserves(o, s, lastId);
    OnlyLastReduces(o, s, lastId);
  }

  lemma {:induction false} RowLeftAlone(e1: State, m: Outcome, record: bool, id: OrderId)
    requires |m.trades| <= |m.consumed| + |m.rest| && id != m.incoming.id
    requires id in e1.store && id in e1.rows && id !in Gone(m)
    requires m.incoming.remaining == 0 && m.trades != [] ==> Counterparty(m, 0).id != id
    ensures var e2 := AfterLoop(e1, m, record); id in e2.store && (RowAgrees(e2, id) <==> RowAgrees(e1, id))
  {
  }

  lemma {:induction false} RowIsThere(e: State, o: OrderData, id: OrderId)
    requires Working(e, o) && id in AfterMatch(e, o).store
    ensures id in AfterMatch(e, o).rows
  {
    assert AfterMatch(e, o).store.Keys == e.store.Keys && AfterMatch(e, o).rows == e.rows;
    assert id in e.rows.Keys;
  }

  lemma {:induction false} FirstCounterparty(o: OrderData, s: seq<OrderData>, lastId: TradeId, k: nat)
    requires k < |s| && DistinctIds(s)
    ensures var m := Match(o, s, lastId);
      && 0 < |m.consumed| + |m.rest| && 1 < |Touched(m)|
      && ((m.consumed + m.rest)[0].id == s[k].id <==> k == 0)
      && (k == 0 ==> Touched(m)[1] == (m.consumed + m.rest)[0])
  {
    TouchedAt(o, s, lastId, 0);
    var m := Match(o, s, lastId);
    assert Touched(m)[1] == (m.consumed + m.rest)[0];
  }

  // ---------------------------------------------------------------- rows and spent orders, per command

  /** The incoming order was filled in two or more trades. */
  predicate FilledByMany(j: Job) {
    j.Job? && MatchIn(j).incoming.remaining == 0 && |MatchIn(j).trades| >= 2
  }

  lemma {:induction false} OtherRowAfterLoop(e: State, o: OrderData, record: bool, id: OrderId)
    requires Working(e, o) && RowsAgree(e) && id in e.store && id != o.id
    requires forall x | x in SideOf(e, Opposite(o.side)) :: x.id != id
    ensures var m := MatchOf(e, o);
      |m.trades| <= |m.consumed| + |m.rest| &&
      var e2 := AfterLoop(AfterMatch(e, o), m, record);
      id in e2.store && RowAgrees(e2, id)
  {
    var s := SideOf(e, Opposite(o.side));
    var m := MatchOf(e, o);
    var e1 := AfterMatch(e, o);
    MatchPairs(o, s, e.lastTradeId);
    StoreAfterMatch(e, o, id);
    assert RowAgrees(e, id) && RowAgrees(e1, id);
    OthersNotTouched(o, s, e.lastTradeId, id);
    RowAfterLoop(e1, m, record, id);
  }

  lemma {:induction false} OthersNotTouched(o: OrderData, s: seq<OrderData>, lastId: TradeId, id: OrderId)
    requires id != o.id && forall x | x in s :: x.id != id
    ensures var m := Match(o, s, lastId);
      id !in Gone(m) && m.incoming.id == o.id && (forall x | x in m.consumed + m.rest :: x.id != id)
  {
    var m := Match(o, s, lastId);
    var t := m.consumed + m.rest;
    FillConserves(o, s, lastId);
    SameIds(o, s, lastId);
    forall x | x in t ensures x.id != id {
      var i :| 0 <= i < |t| && t[i] == x;
      assert s[i] in s;
    }
    assert forall x | x in m.consumed :: x in t;
  }

  /** Apart from the incoming order, all rows agree after the loop exactly when every trade
      was handled. */
  lemma {:induction false} RowsAfterLoop(e: State, o: OrderData, record: bool)
    requires Working(e, o) && RowsAgree(e)
    ensures var m := MatchOf(e, o); var e2 := TradeLoop(AfterMatch(e, o), m.trades, record);
      OtherRowsAgree(e2, o.id) <==> Handled(m) == |m.trades|
  {
    var s := SideOf(e, Opposite(o.side));
    var m := MatchOf(e, o);
    LoopEffect(e, o, record);
    var e2 := AfterLoop(AfterMatch(e, o), m, record);
    if Handled(m) == |m.trades| {
      forall id | id in e2.store && id != o.id ensures RowAgrees(e2, id) {
        if k :| 0 <= k < |s| && s[k].id == id {
          RestingRowAfterLoop(e, o, record, k);
        } else {
          assert forall x | x in s :: x.id != id;
          OtherRowAfterLoop(e, o, record, id);
        }
      }
    } else {
      FillTradesInOrder(o, s, e.lastTradeId);
      RestingRowAfterLoop(e, o, record, 1);
      assert s[1] in s;
    }
  }

  lemma {:induction false} IncomingRow(e: State, o: OrderData, record: bool)
    requires Working(e, o) && RowsAgree(e) && o.otype == Limit
    ensures var m := MatchOf(e, o); var e2 := TradeLoop(AfterMatch(e, o), m.trades, record);
      m.incoming.remaining > 0 ==> RowAgrees(e2, o.id)
  {
    var m := MatchOf(e, o);
    if m.incoming.remaining > 0 {
      LoopEffect(e, o, record);
      OthersNotTouchedByIncoming(e, o);
      IncomingUntraded(e, o);
      OpenRow(AfterMatch(e, o), m, record);
    }
  }

  /** The incoming order after its match, and its row if it has not traded. */
  lemma {:induction false} IncomingUntraded(e: State, o: OrderData)
    requires Working(e, o) && RowsAgree(e) && o.otype == Limit && MatchOf(e, o).incoming.remaining > 0
    ensures var m := MatchOf(e, o); var e1 := AfterMatch(e, o);
      && m.incoming.id == o.id && o.id in e1.store && e1.store[o.id] == m.incoming && o.id in e1.rows
      && (m.trades == [] ==> e1.rows[o.id] == Row(m.incoming.remaining, m.incoming.status))
  {
    AfterMatchHolds(e, o);
    assert RowAgrees(e, o.id);
    FillConserves(o, SideOf(e, Opposite(o.side)), e.lastTradeId);
  }

  lemma {:induction false} OpenRow(e1: State, m: Outcome, record: bool)
    requires |m.trades| <= |m.consumed| + |m.rest| && m.incoming.remaining > 0 && m.incoming.id !in Gone(m)
    requires m.incoming.id in e1.store && e1.store[m.incoming.id] == m.incoming && m.incoming.id in e1.rows
    requires m.trades == [] ==> e1.rows[m.incoming.id] == Row(m.incoming.remaining, m.incoming.status)
    ensures RowAgrees(AfterLoop(e1, m, record), m.incoming.id)
  {
  }

  lemma {:induction false} OthersNotTouchedByIncoming(e: State, o: OrderData)
    requires Working(e, o) && MatchOf(e, o).incoming.remaining > 0
    ensures o.id !in Gone(MatchOf(e, o))
  {
    AfterMatchHolds(e, o);
    var m := MatchOf(e, o);
    assert forall x | x in m.consumed :: x in m.consumed + m.rest;
  }

  /** The command's order is larger than the first resting order, and there is enough within
      its limit to fill it. */
  predicate TakesSeveral(j: Job) {
    j.Job? &&
    var o, s := j.order, SideOf(j.state, Opposite(j.order.side));
    s != [] && s[0].remaining < o.remaining <= Available(o, s)
  }

  /** It is at least as large as the first two, and there is enough to fill it. */
  predicate EmptiesSeveral(j: Job) {
    j.Job? &&
    var o, s := j.order, SideOf(j.state, Opposite(j.order.side));
    |s| >= 2 && s[0].remaining + s[1].remaining <= o.remaining <= Available(o, s)
  }

  /** The trades behind the first one. */
  lemma {:induction false} BehindFirst(o: OrderData, s: seq<OrderData>, lastId: TradeId) returns (sub: Outcome)
    requires SideOk(Opposite(o.side), s) && s != [] && Crosses(o, s[0].price) && s[0].remaining < o.remaining
    ensures var m := Fill(o, s, lastId); var o' := Advance(o, s[0].remaining);
      && sub == Fill(o', s[1..], lastId + 1)
      && |m.trades| == 1 + |sub.trades| && |m.consumed| == 1 + |sub.consumed|
      && Available(o, s) == s[0].remaining + Available(o', s[1..])
      && TotalTraded(sub.trades) == Min(o'.remaining, Available(o', s[1..]))
  {
    var o' := Advance(o, s[0].remaining);
    sub := FillStep(o, s, lastId);
    AvailableByPrice(o, o', s[1..]);
    FillsAllItCan(o', s[1..], lastId + 1);
  }

  lemma {:induction false} NothingCrosses(o: OrderData, s: seq<OrderData>, lastId: TradeId)
    requires Sorted(Opposite(o.side), s) && (s == [] || !Crosses(o, s[0].price))
    ensures Available(o, s) == 0 && Fill(o, s, lastId) == Outcome(o, s, [], [])
  {
    if s != [] {
      NothingCrossesBehind(o, s);
      NothingAvailable(o, s);
    }
  }

  /** When the order is filled, how many trades it took and how many orders it emptied can be
      told before the match. */
  lemma {:induction false} SeveralTrades(o: OrderData, s: seq<OrderData>, lastId: TradeId)
    requires SideOk(Opposite(o.side), s) && o.remaining <= Available(o, s)
    ensures var m := Fill(o, s, lastId);
      && (|m.trades| >= 2 <==> s != [] && s[0].remaining < o.remaining)
      && (|m.consumed| >= 2 <==> |s| >= 2 && s[0].remaining + s[1].remaining <= o.remaining)
  {
    assert s != [] ==> s[0] in s;
    if s == [] || !Crosses(o, s[0].price) {
      NothingCrosses(o, s, lastId);
    } else if s[0].remaining < o.remaining {
      var sub := BehindFirst(o, s, lastId);
      SeveralBehind(Advance(o, s[0].remaining), s, lastId + 1);
    } else {
      FewTrades(o, s, lastId);
    }
  }

  lemma {:induction false} FewTrades(o: OrderData, s: seq<OrderData>, lastId: TradeId)
    requires Resting(Opposite(o.side), s) && s != [] && Crosses(o, s[0].price) && o.remaining <= s[0].remaining
    ensures var m := Fill(o, s, lastId); |m.trades| <= 1 && |m.consumed| <= 1
    ensures |s| >= 2 ==> s[1].remaining > 0
  {
    assert |s| >= 2 ==> s[1] in s;
    if o.remaining == s[0].remaining > 0 {
      var sub := FillStep(o, s, lastId);
    }
  }

  lemma {:induction false} SeveralBehind(o: OrderData, s: seq<OrderData>, lastId: TradeId)
    requires SideOk(Opposite(o.side), s) && s != [] && 0 < o.remaining <= Available(o, s[1..])
    ensures var m := Fill(o, s[1..], lastId);
      |m.trades| >= 1 && (|m.consumed| >= 1 <==> |s| >= 2 && s[1].remaining <= o.remaining)
  {
    var rest := s[1..];
    assert forall i, j | 0 <= i < j < |rest| :: rest[i] == s[i + 1] && rest[j] == s[j + 1];
    if rest == [] || !Crosses(o, rest[0].price) {
      NothingCrosses(o, rest, lastId);
    } else if rest[0].remaining <= o.remaining {
      var sub := FillStep(o, rest, lastId);
    }
  }

  /** The same two conditions, before the match and by its outcome. */
  lemma {:induction false} ToldBeforehand(j: Job)
    requires j.Job? && BookOk(j.state)
    ensures TakesSeveral(j) <==> FilledByMany(j)
    ensures EmptiesSeveral(j) <==> FilledByMany(j) && |MatchIn(j).consumed| >= 2
  {
    var o, s, lastId := j.order, SideOf(j.state, Opposite(j.order.side)), j.state.lastTradeId;
    FillConserves(o, s, lastId);
    FillsAllItCan(o, s, lastId);
    FillTakesPrefix(o, s, lastId);
    if o.remaining <= Available(o, s) {
      SeveralTrades(o, s, lastId);
      assert |s| >= 2 ==> s[1] in s;
    }
  }

  /** The order table keeps agreeing with the store across a command exactly when its order is
      not larger than the first resting order or cannot be filled. */
  lemma {:induction false} StepRows(e: State, c: Command)
    requires Inv(e) && Admissible(e, c) && RowsAgree(e)
    ensures RowsAgree(Step(e, c)) <==> !TakesSeveral(JobOf(e, c))
  {
    var j := JobOf(e, c);
    RowsByOutcome(e, c);
    if j.Job? {
      JobWorks(e, c);
      ToldBeforehand(j);
    }
  }

  lemma {:induction false} RowsByOutcome(e: State, c: Command)
    requires Inv(e) && Admissible(e, c) && RowsAgree(e)
    ensures RowsAgree(Step(e, c)) <==> !FilledByMany(JobOf(e, c))
  {
    var j := JobOf(e, c);
    if j.Job? {
      JobWorks(e, c);
      JobRowsAgree(e, c);
      StepPlaces(e, c);
      JobRows(j, c.Submit?);
    } else {
      RowsWithoutMatch(e, c);
    }
  }

  lemma {:induction false} JobRows(j: Job, record: bool)
    requires j.Job? && Working(j.state, j.order) && RowsAgree(j.state) && MatchIn(j).incoming.id == j.order.id
    ensures var e2 := AfterTrades(j, record);
      var e' := if Stays(j) then Rest(e2, MatchIn(j).incoming) else Drop(e2, j.order.id);
      RowsAgree(e') <==> !FilledByMany(j)
  {
    var e2 := AfterTrades(j, record);
    RowsAfterLoop(j.state, j.order, record);
    if Stays(j) {
      IncomingRow(j.state, j.order, record);
      RowsOfRest(e2, MatchIn(j).incoming);
    } else {
      RowsOfDrop(e2, j.order.id);
    }
  }

  lemma {:induction false} RowsOfRest(e: State, o: OrderData)
    requires o.id in e.store ==> RowAgrees(e, o.id)
    ensures RowsAgree(Rest(e, o)) <==> OtherRowsAgree(e, o.id)
  {
    var e' := Rest(e, o);
    assert forall id :: RowAgrees(e', id) <==> RowAgrees(e, id);
  }

  lemma {:induction false} RowsOfDrop(e: State, gone: OrderId)
    ensures RowsAgree(Drop(e, gone)) <==> OtherRowsAgree(e, gone)
  {
    var e' := Drop(e, gone);
    assert forall id | id != gone :: RowAgrees(e', id) <==> RowAgrees(e, id);
  }

  lemma {:induction false} RowsWithoutMatch(e: State, c: Command)
    requires RowsAgree(e) && !JobOf(e, c).Job?
    ensures RowsAgree(Step(e, c))
  {
    var e' := Step(e, c);
    forall id | id in e'.store ensures RowAgrees(e', id) {
      assert RowAgrees(e, id);
    }
  }

  // ---------------------------------------------------------------- spent orders

  /** A filled order that is still in the store. */
  predicate Spent(e: State, id: OrderId) {
    id in e.store && e.store[id].remaining == 0
  }

  ghost predicate StorePlainlyOpen(e: State) {
    forall id :: !Spent(e, id)
  }

  /** Filled by a trade that was not handled. */
  predicate LeftBehind(m: Outcome, id: OrderId) {
    exists k | Handled(m) <= k < |m.consumed| :: m.consumed[k].id == id
  }

  lemma {:induction false} FilledAtPosition(e: State, o: OrderData, k: nat)
    requires Working(e, o) && k < |SideOf(e, Opposite(o.side))|
    ensures var m := MatchOf(e, o); var id := SideOf(e, Opposite(o.side))[k].id;
      id in AfterMatch(e, o).store && (AfterMatch(e, o).store[id].remaining == 0 <==> k < |m.consumed|)
  {
    var s := SideOf(e, Opposite(o.side));
    var m := MatchOf(e, o);
    TouchedHeld(e, o, k + 1);
    TouchedAt(o, s, e.lastTradeId, k);
    ConsumedAndRest(o, s, e.lastTradeId);
    FillTakesPrefix(o, s, e.lastTradeId);
    var x := (m.consumed + m.rest)[k];
    assert Touched(m)[k + 1] == x;
    assert if k < |m.consumed| then x in m.consumed else x in m.rest;
  }

  lemma {:induction false} LeftBehindAt(o: OrderData, s: seq<OrderData>, lastId: TradeId, k: nat)
    requires k < |s| && DistinctIds(s)
    ensures var m := Match(o, s, lastId); LeftBehind(m, s[k].id) <==> Handled(m) <= k < |m.consumed|
  {
    var m := Match(o, s, lastId);
    FillTakesPrefix(o, s, lastId);
    assert forall i | 0 <= i < |m.consumed| :: m.consumed[i].id == s[i].id;
  }

  lemma {:induction false} SpentAtPosition(e: State, o: OrderData, k: nat)
    requires Working(e, o) && k < |SideOf(e, Opposite(o.side))|
    ensures var m := MatchOf(e, o); var id := SideOf(e, Opposite(o.side))[k].id;
      && id in AfterMatch(e, o).store
      && (AfterMatch(e, o).store[id].remaining == 0 <==> k < |m.consumed|)
      && (id in Gone(m) <==> k < Handled(m) && k < |m.consumed|)
      && (LeftBehind(m, id) <==> Handled(m) <= k < |m.consumed|)
  {
    FilledAtPosition(e, o, k);
    GoneByPosition(o, SideOf(e, Opposite(o.side)), e.lastTradeId, k);
    LeftBehindAt(o, SideOf(e, Opposite(o.side)), e.lastTradeId, k);
  }

  lemma {:induction false} SpentAfterTrades(e: State, o: OrderData, record: bool, id: OrderId)
    requires Working(e, o) && id != o.id
    ensures var m := MatchOf(e, o); var e2 := TradeLoop(AfterMatch(e, o), m.trades, record);
      Spent(e2, id) <==> Spent(e, id) || LeftBehind(m, id)
  {
    var s := SideOf(e, Opposite(o.side));
    LoopEffect(e, o, record);
    if k :| 0 <= k < |s| && s[k].id == id {
      RestingSpent(e, o, k);
    } else {
      assert forall x | x in s :: x.id != id;
      OtherSpent(e, o, id);
    }
  }

  /** A resting order is spent after the loop if it was filled and not removed. */
  lemma {:induction false} RestingSpent(e: State, o: OrderData, k: nat)
    requires Working(e, o) && k < |SideOf(e, Opposite(o.side))|
    ensures var m := MatchOf(e, o); var id := SideOf(e, Opposite(o.side))[k].id; var store := AfterMatch(e, o).store - Gone(m);
      !Spent(e, id) && (id in store && store[id].remaining == 0 <==> LeftBehind(m, id))
  {
    var s := SideOf(e, Opposite(o.side));
    assert s[k] in s && MayRest(Opposite(o.side), s[k]);
    SpentAtPosition(e, o, k);
  }

  lemma {:induction false} OtherSpent(e: State, o: OrderData, id: OrderId)
    requires Working(e, o) && id != o.id && forall x | x in SideOf(e, Opposite(o.side)) :: x.id != id
    ensures var m := MatchOf(e, o); var store := AfterMatch(e, o).store - Gone(m);
      !LeftBehind(m, id) && (id in store && store[id].remaining == 0 <==> Spent(e, id))
  {
    OthersNotTouched(o, SideOf(e, Opposite(o.side)), e.lastTradeId, id);
    NotLeftBehind(MatchOf(e, o), id);
    SideApart(e, o);
    if id in e.store {
      StoreAfterMatch(e, o, id);
    }
  }

  lemma {:induction false} NotLeftBehind(m: Outcome, id: OrderId)
    requires forall x | x in m.consumed + m.rest :: x.id != id
    ensures !LeftBehind(m, id)
  {
    assert forall k | 0 <= k < |m.consumed| :: m.consumed[k] in m.consumed + m.rest;
  }

  /** The filled orders a command adds to the store are exactly those of its unhandled
      trades; the order it works on never becomes one. */
  lemma {:induction false} StepSpent(e: State, c: Command, id: OrderId)
    requires Inv(e) && Admissible(e, c)
    ensures var j := JobOf(e, c);
      Spent(Step(e, c), id) <==>
        if j.Job? then id != j.order.id && (Spent(e, id) || LeftBehind(MatchIn(j), id)) else Spent(e, id)
  {
    var j := JobOf(e, c);
    if j.Job? {
      JobWorks(e, c);
      StepPlaces(e, c);
      JobSpent(j, c.Submit?, id);
      SpentPrepared(e, c, id);
    } else {
      SpentWithoutMatch(e, c, id);
    }
  }

  lemma {:induction false} SpentPrepared(e: State, c: Command, id: OrderId)
    requires JobOf(e, c).Job?
    ensures id != JobOf(e, c).order.id ==> (Spent(JobOf(e, c).state, id) <==> Spent(e, id))
  {
  }

  lemma {:induction false} SpentWithoutMatch(e: State, c: Command, id: OrderId)
    requires Inv(e) && !JobOf(e, c).Job?
    ensures Spent(Step(e, c), id) <==> Spent(e, id)
  {
    if c.Cancel? && id in e.store {
      OnBookIffRemaining(e, id);
    }
  }

  lemma {:induction false} JobSpent(j: Job, record: bool, id: OrderId)
    requires j.Job? && Working(j.state, j.order) && MatchIn(j).incoming.id == j.order.id
    ensures var e2 := AfterTrades(j, record);
      var e' := if Stays(j) then Rest(e2, MatchIn(j).incoming) else Drop(e2, j.order.id);
      Spent(e', id) <==> id != j.order.id && (Spent(j.state, id) || LeftBehind(MatchIn(j), id))
  {
    if id != j.order.id {
      SpentAfterTrades(j.state, j.order, record, id);
    } else if Stays(j) {
      IncomingKept(j, record);
    }
  }

  /** "The store holds exactly the open orders" survives a command unless its order is at least
      as large as the first two resting orders and can be filled. */
  lemma {:induction false} StoreStaysOpen(e: State, c: Command)
    requires Inv(e) && Admissible(e, c) && StorePlainlyOpen(e)
    ensures StorePlainlyOpen(Step(e, c)) <==> !EmptiesSeveral(JobOf(e, c))
  {
    var j := JobOf(e, c);
    StoreByOutcome(e, c);
    if j.Job? {
      JobWorks(e, c);
      ToldBeforehand(j);
    }
  }

  lemma {:induction false} StoreByOutcome(e: State, c: Command)
    requires Inv(e) && Admissible(e, c) && StorePlainlyOpen(e)
    ensures StorePlainlyOpen(Step(e, c)) <==> !(FilledByMany(JobOf(e, c)) && |MatchIn(JobOf(e, c)).consumed| >= 2)
  {
    var j := JobOf(e, c);
    forall id ensures Spent(Step(e, c), id) <==> j.Job? && id != j.order.id && LeftBehind(MatchIn(j), id) {
      StepSpent(e, c, id);
    }
    if j.Job? {
      JobWorks(e, c);
      var m := MatchIn(j);
      MatchPairs(j.order, SideOf(j.state, Opposite(j.order.side)), j.state.lastTradeId);
      AfterMatchHolds(j.state, j.order);
      if FilledByMany(j) && |m.consumed| >= 2 {
        assert m.consumed[1] in m.consumed + m.rest;
        assert LeftBehind(m, m.consumed[1].id);
        assert Spent(Step(e, c), m.consumed[1].id);
      }
    }
  }
}
