/** One side of the book as the sequence of its resting orders in price-time priority:
    the concatenation of the price levels, best price first. */
module PriceTime {
  import opened Orders
  import opened Matching

  predicate Sorted(side: Side, s: seq<OrderData>) {
    forall i, j | 0 <= i < j < |s| :: !Better(side, s[j].price, s[i].price)
  }

  /** Every entry may rest on this side: right side, Limit, something left to fill. */
  predicate Resting(side: Side, s: seq<OrderData>) {
    forall x | x in s :: MayRest(side, x)
  }

  predicate MayRest(side: Side, x: OrderData) {
    x.side == side && x.otype == Limit && 0 < x.remaining <= x.original
  }

  predicate SideOk(side: Side, s: seq<OrderData>) {
    Sorted(side, s) && Resting(side, s) && DistinctIds(s)
  }

  /** Joins the queue of its price: behind every order priced at least as well. */
  function Insert(side: Side, s: seq<OrderData>, o: OrderData): seq<OrderData> {
    if s == [] || Better(side, o.price, s[0].price) then [o] + s
    else [s[0]] + Insert(side, s[1..], o)
  }

  /** Takes the first entry with this id out. */
  function Remove(s: seq<OrderData>, id: OrderId): seq<OrderData> {
    if s == [] then []
    else if s[0].id == id then s[1..]
    else [s[0]] + Remove(s[1..], id)
  }

  /** An insertion point: everything before it is at least as good, everything behind is
      strictly worse. */
  ghost predicate InsertsAt(side: Side, s: seq<OrderData>, o: OrderData, k: nat) {
    && k <= |s|
    && Insert(side, s, o) == s[..k] + [o] + s[k..]
    && (forall i | 0 <= i < k :: !Better(side, o.price, s[i].price))
    && (forall i | k <= i < |s| :: Better(side, o.price, s[i].price))
  }

  lemma {:induction false} InsertsFurther(side: Side, s: seq<OrderData>, o: OrderData, k: nat)
    requires s != [] && !Better(side, o.price, s[0].price) && InsertsAt(side, s[1..], o, k)
    ensures InsertsAt(side, s, o, k + 1)
  {
    assert s[..k + 1] == [s[0]] + s[1..][..k] && s[k + 1..] == s[1..][k..];
    forall i | 0 <= i < |s|
      ensures if i < k + 1 then !Better(side, o.price, s[i].price) else Better(side, o.price, s[i].price)
    {
      if i > 0 {
        assert s[i] == s[1..][i - 1];
      }
    }
  }

  /** Price-time priority of an insertion. */
  lemma {:induction false} InsertPosition(side: Side, s: seq<OrderData>, o: OrderData) returns (k: nat)
    requires Sorted(side, s)
    ensures InsertsAt(side, s, o, k)
  {
    if s == [] || Better(side, o.price, s[0].price) {
      k := 0;
      assert s[..0] + [o] + s[0..] == [o] + s;
    } else {
      var k' := InsertPosition(side, s[1..], o);
      InsertsFurther(side, s, o, k');
      k := k' + 1;
    }
  }

  /** t is s with one more entry, o, at position k. */
  ghost predicate AddsOne(s: seq<OrderData>, t: seq<OrderData>, o: OrderData, k: nat) {
    k <= |s| && t == s[..k] + [o] + s[k..]
  }

  lemma {:induction false} AddsOneMembers(s: seq<OrderData>, t: seq<OrderData>, o: OrderData, k: nat)
    requires AddsOne(s, t, o, k)
    ensures forall x :: x in t <==> x == o || x in s
  {
    assert s == s[..k] + s[k..];
  }

  /** Indexing a sequence with one more entry. */
  lemma {:induction false} AddsOneAt(s: seq<OrderData>, t: seq<OrderData>, o: OrderData, k: nat, i: nat)
    requires AddsOne(s, t, o, k) && i < |t|
    ensures i < k ==> t[i] == s[i]
    ensures i == k ==> t[i] == o
    ensures i > k ==> t[i] == s[i - 1]
  {
  }

  lemma {:induction false} InsertKeeps(side: Side, s: seq<OrderData>, o: OrderData)
    requires SideOk(side, s) && !HasId(s, o.id) && MayRest(side, o)
    ensures SideOk(side, Insert(side, s, o))
    ensures forall x :: x in Insert(side, s, o) <==> x == o || x in s
  {
    var k := InsertPosition(side, s, o);
    var t := Insert(side, s, o);
    AddsOneMembers(s, t, o, k);
    forall i, j | 0 <= i < j < |t|
      ensures !Better(side, t[j].price, t[i].price) && t[i].id != t[j].id
    {
      AddsOneAt(s, t, o, k, i);
      AddsOneAt(s, t, o, k, j);
    }
  }

  /** Removal takes out exactly one position, the only one with that id. */
  lemma {:induction false} RemovePosition(s: seq<OrderData>, id: OrderId) returns (k: nat)
    requires HasId(s, id)
    ensures k < |s| && s[k].id == id && Remove(s, id) == s[..k] + s[k + 1..]
  {
    if s[0].id == id {
      k := 0;
      assert s[..0] + s[1..] == s[1..];
    } else {
      var i :| 0 <= i < |s| && s[i].id == id;
      assert s[1..][i - 1].id == id;
      var k' := RemovePosition(s[1..], id);
      k := k' + 1;
      WithoutFurther(s, k');
    }
  }

  lemma {:induction false} WithoutFurther(s: seq<OrderData>, k: nat)
    requires k + 1 < |s|
    ensures s[1..][k] == s[k + 1] && [s[0]] + (s[1..][..k] + s[1..][k + 1..]) == s[..k + 1] + s[k + 2..]
  {
    assert s[..k + 1] == [s[0]] + s[1..][..k];
    assert s[k + 2..] == s[1..][k + 1..];
  }

  lemma {:induction false} RemoveMissing(s: seq<OrderData>, id: OrderId)
    requires !HasId(s, id)
    ensures Remove(s, id) == s
  {
    if s != [] {
      assert s[0].id != id;
      forall i | 0 <= i < |s[1..]| ensures s[1..][i].id != id {
        assert s[1..][i] == s[i + 1];
      }
      RemoveMissing(s[1..], id);
    }
  }

  lemma {:induction false} WithoutMembers(s: seq<OrderData>, k: nat)
    requires k < |s| && DistinctIds(s)
    ensures forall x :: x in s[..k] + s[k + 1..] <==> x in s && x.id != s[k].id
  {
    var t := s[..k] + s[k + 1..];
    forall x | x in t ensures x in s && x.id != s[k].id {
      var i :| 0 <= i < |t| && t[i] == x;
      assert x == s[if i < k then i else i + 1];
    }
    forall x | x in s && x.id != s[k].id ensures x in t {
      var i :| 0 <= i < |s| && s[i] == x;
      assert x == t[if i < k then i else i - 1];
    }
  }

  lemma {:induction false} RemoveKeepsMembers(s: seq<OrderData>, id: OrderId)
    requires DistinctIds(s)
    ensures forall x :: x in Remove(s, id) <==> x in s && x.id != id
  {
    if HasId(s, id) {
      var k := RemovePosition(s, id);
      WithoutMembers(s, k);
    } else {
      RemoveMissing(s, id);
      forall x | x in s ensures x.id != id {
        var i :| 0 <= i < |s| && s[i] == x;
      }
    }
  }

  lemma {:induction false} RemoveKeeps(side: Side, s: seq<OrderData>, id: OrderId)
    requires SideOk(side, s)
    ensures SideOk(side, Remove(s, id))
  {
    if HasId(s, id) {
      var k := RemovePosition(s, id);
      var t := Remove(s, id);
      forall i, j | 0 <= i < j < |t|
        ensures !Better(side, t[j].price, t[i].price) && t[i].id != t[j].id
      {
        assert t[i] == s[if i < k then i else i + 1];
        assert t[j] == s[if j < k then j else j + 1];
      }
      RemoveKeepsMembers(s, id);
    } else {
      RemoveMissing(s, id);
    }
  }

  /** Taking an order out again restores the side it was inserted into. */
  lemma {:induction false} RemoveUndoesInsert(side: Side, s: seq<OrderData>, o: OrderData)
    requires !HasId(s, o.id)
    ensures Remove(Insert(side, s, o), o.id) == s
  {
    if s == [] || Better(side, o.price, s[0].price) {
      assert ([o] + s)[1..] == s;
    } else {
      var t := Insert(side, s[1..], o);
      assert s[0].id != o.id && forall i | 0 <= i < |s| - 1 :: s[1..][i] == s[i + 1];
      RemoveUndoesInsert(side, s[1..], o);
      assert ([s[0]] + t)[1..] == t;
    }
  }

  // ---------------------------------------------------------------- matching a sorted side

  /** What the incoming order could trade if it were unlimited: the remaining quantities of
      all resting orders at an acceptable price, wherever they stand in the queue. */
  function Available(inc: OrderData, s: seq<OrderData>): nat {
    if s == [] then 0
    else (if Crosses(inc, s[0].price) then s[0].remaining else 0) + Available(inc, s[1..])
  }

  lemma {:induction false} NothingAvailable(inc: OrderData, s: seq<OrderData>)
    requires forall i | 0 <= i < |s| :: !Crosses(inc, s[i].price)
    ensures Available(inc, s) == 0
  {
    if s != [] {
      assert forall i | 0 <= i < |s| - 1 :: s[1..][i] == s[i + 1];
      NothingAvailable(inc, s[1..]);
    }
  }

  /** On a sorted side the match fills as much as any matching could: the incoming quantity
      or everything that crosses, whichever is less. */
  lemma {:induction false} FillsAllItCan(inc: OrderData, s: seq<OrderData>, lastId: TradeId)
    requires Sorted(Opposite(inc.side), s)
    ensures TotalTraded(Fill(inc, s, lastId).trades) == Min(inc.remaining, Available(inc, s))
    decreases |s|
  {
    if s == [] || inc.remaining == 0 {
    } else if !Crosses(inc, s[0].price) {
      NothingAvailable(inc, s);
    } else if s[0].remaining <= inc.remaining {
      var sub := FillStep(inc, s, lastId);
      var inc' := Advance(inc, s[0].remaining);
      FillsAllItCan(inc', s[1..], lastId + 1);
      AvailableByPrice(inc, inc', s[1..]);
    }
  }

  lemma {:induction false} AvailableByPrice(a: OrderData, b: OrderData, s: seq<OrderData>)
    requires a.side == b.side && a.otype == b.otype && a.price == b.price
    ensures Available(a, s) == Available(b, s)
  {
    if s != [] {
      AvailableByPrice(a, b, s[1..]);
    }
  }

  /** The same order, possibly with less left to fill. */
  ghost predicate SameOrder(a: OrderData, b: OrderData) {
    && a.id == b.id && a.sender == b.sender && a.side == b.side && a.otype == b.otype
    && a.original == b.original && a.price == b.price && a.remaining <= b.remaining
  }

  /** What is left of a side after a match is a suffix of it, order by order. */
  lemma {:induction false} FillLeavesSuffix(inc: OrderData, s: seq<OrderData>, lastId: TradeId)
    ensures var out := Fill(inc, s, lastId);
      && |out.consumed| + |out.rest| == |s|
      && (forall i | 0 <= i < |out.rest| :: SameOrder(out.rest[i], s[|out.consumed| + i]))
      && (forall i | 1 <= i < |out.rest| :: out.rest[i] == s[|out.consumed| + i])
      && (out.rest != [] && s[|out.consumed|].remaining > 0 ==> out.rest[0].remaining > 0)
  {
    FillTakesPrefix(inc, s, lastId);
  }

  lemma {:induction false} TailIsOk(side: Side, s: seq<OrderData>)
    requires SideOk(side, s) && s != []
    ensures SideOk(side, s[1..])
  {
    assert forall i | 0 <= i < |s| - 1 :: s[1..][i] == s[i + 1];
  }

  lemma {:induction false} ReducedHeadIsOk(side: Side, s: seq<OrderData>, quantity: Quantity)
    requires SideOk(side, s) && s != [] && quantity < s[0].remaining
    ensures SideOk(side, [Reduced(s[0], quantity)] + s[1..])
  {
    var t := [Reduced(s[0], quantity)] + s[1..];
    assert s[0] in s;
    forall i | 0 <= i < |t| ensures t[i].id == s[i].id && t[i].price == s[i].price {
    }
  }

  lemma {:induction false} FillRestIsOk(inc: OrderData, s: seq<OrderData>, lastId: TradeId)
    requires SideOk(Opposite(inc.side), s)
    ensures SideOk(Opposite(inc.side), Fill(inc, s, lastId).rest)
    decreases |s|
  {
    if inc.remaining > 0 && s != [] && Crosses(inc, s[0].price) {
      if s[0].remaining <= inc.remaining {
        var sub := FillStep(inc, s, lastId);
        TailIsOk(Opposite(inc.side), s);
        FillRestIsOk(Advance(inc, s[0].remaining), s[1..], lastId + 1);
      } else {
        ReducedHeadIsOk(Opposite(inc.side), s, inc.remaining);
      }
    }
  }

  /** Behind an order that does not cross, on a sorted side, nothing does. */
  lemma {:induction false} NothingCrossesBehind(inc: OrderData, rest: seq<OrderData>)
    requires Sorted(Opposite(inc.side), rest) && (rest == [] || !Crosses(inc, rest[0].price))
    ensures forall i | 0 <= i < |rest| :: !Crosses(inc, rest[i].price)
  {
    forall i | 0 <= i < |rest| ensures !Crosses(inc, rest[i].price) {
      assert i > 0 ==> !Better(Opposite(inc.side), rest[i].price, rest[0].price);
    }
  }

  lemma {:induction false} FillRestIsBehind(inc: OrderData, s: seq<OrderData>, lastId: TradeId)
    requires SideOk(Opposite(inc.side), s)
    ensures var out := Fill(inc, s, lastId);
      out.incoming.remaining > 0 ==> forall i | 0 <= i < |out.rest| :: !Crosses(inc, out.rest[i].price)
  {
    var out := Fill(inc, s, lastId);
    if out.incoming.remaining > 0 {
      FillRestIsOk(inc, s, lastId);
      FillStops(inc, s, lastId);
      FillConserves(inc, s, lastId);
      assert out.rest == [] || !Crosses(inc, out.rest[0].price);
      NothingCrossesBehind(inc, out.rest);
    }
  }

  /** Matching keeps the side in order and leaves nothing behind that still crosses. */
  lemma {:induction false} FillKeepsSide(inc: OrderData, s: seq<OrderData>, lastId: TradeId)
    requires SideOk(Opposite(inc.side), s)
    ensures var out := Fill(inc, s, lastId);
      && SideOk(Opposite(inc.side), out.rest)
      && (out.incoming.remaining > 0 ==> forall i | 0 <= i < |out.rest| :: !Crosses(inc, out.rest[i].price))
  {
    FillRestIsOk(inc, s, lastId);
    FillRestIsBehind(inc, s, lastId);
  }

  /** Every trade is for a positive quantity. */
  lemma {:induction false} TradesArePositive(inc: OrderData, s: seq<OrderData>, lastId: TradeId)
    requires Resting(Opposite(inc.side), s)
    ensures var out := Fill(inc, s, lastId); forall i | 0 <= i < |out.trades| :: out.trades[i].quantity > 0
    decreases |s|
  {
    assert s != [] ==> s[0] in s;
    if inc.remaining > 0 && s != [] && Crosses(inc, s[0].price) && s[0].remaining <= inc.remaining {
      var sub := FillStep(inc, s, lastId);
      TradesArePositive(Advance(inc, s[0].remaining), s[1..], lastId + 1);
    }
  }

  /** Trade prices move away from the top of the book and stay within the limit. */
  lemma {:induction false} TradePrices(inc: OrderData, s: seq<OrderData>, lastId: TradeId)
    requires Sorted(Opposite(inc.side), s)
    ensures var ts := Fill(inc, s, lastId).trades;
      && (forall i | 0 <= i < |ts| :: s != [] && !Better(Opposite(inc.side), ts[i].price, s[0].price) && Crosses(inc, ts[i].price))
      && (forall i, j | 0 <= i < j < |ts| :: !Better(Opposite(inc.side), ts[j].price, ts[i].price))
  {
    FillTradesInOrder(inc, s, lastId);
  }
}
