/** Market-data snapshots: what the book publishes and the ladder a client builds from it. */
module MarketData {
  import opened Orders
  import opened PriceTime
  import opened Engine
  import opened BookObjects
  import opened OrderBooks

  datatype EntryType = Bid | Offer | Trade
  datatype Entry = Entry(etype: EntryType, price: Price, size: Quantity, position: nat)
  datatype Rung = Rung(price: Price, size: Quantity)

  // ---------------------------------------------------------------- the ladder of a side

  /** One rung per price, best first, with the summed remaining quantity. */
  function Ladder(s: seq<OrderData>): seq<Rung> {
    if s == [] then []
    else
      var rest := Ladder(s[1..]);
      if rest != [] && rest[0].price == s[0].price
      then [Rung(s[0].price, s[0].remaining + rest[0].size)] + rest[1..]
      else [Rung(s[0].price, s[0].remaining)] + rest
  }

  /** Independently of the order of s: the quantity resting at a price. */
  function QuantityAt(s: seq<OrderData>, p: Price): nat {
    if s == [] then 0 else (if s[0].price == p then s[0].remaining else 0) + QuantityAt(s[1..], p)
  }

  predicate HasPrice(s: seq<OrderData>, p: Price) {
    exists x | x in s :: x.price == p
  }

  predicate Climbs(side: Side, ladder: seq<Rung>) {
    forall i, j | 0 <= i < j < |ladder| :: Better(side, ladder[i].price, ladder[j].price)
  }

  lemma {:induction false} LadderHead(s: seq<OrderData>)
    ensures (Ladder(s) == [] <==> s == []) && (s != [] ==> Ladder(s)[0].price == s[0].price)
  {
    if s != [] {
      LadderHead(s[1..]);
    }
  }

  lemma {:induction false} NothingAt(s: seq<OrderData>, p: Price)
    requires !HasPrice(s, p)
    ensures QuantityAt(s, p) == 0
  {
    if s != [] {
      assert s[0] in s;
      assert forall x | x in s[1..] :: x in s;
      NothingAt(s[1..], p);
    }
  }

  /** A new head on a strictly ordered ladder. */
  lemma {:induction false} ClimbsHead(side: Side, r: Rung, rest: seq<Rung>)
    requires Climbs(side, rest) && (rest != [] ==> Better(side, r.price, rest[0].price))
    ensures Climbs(side, [r] + rest)
  {
    forall i, j | 0 <= i < j < 1 + |rest| ensures Better(side, ([r] + rest)[i].price, ([r] + rest)[j].price) {
      if i == 0 && j > 1 {
        assert Better(side, rest[0].price, rest[j - 1].price);
      }
    }
  }

  /** The ladder of one more order in front. */
  lemma {:induction false} LadderGrows(side: Side, o: OrderData, rest: seq<Rung>)
    requires Climbs(side, rest) && (rest != [] ==> !Better(side, rest[0].price, o.price))
    ensures if rest != [] && rest[0].price == o.price
            then Climbs(side, [Rung(o.price, o.remaining + rest[0].size)] + rest[1..])
            else Climbs(side, [Rung(o.price, o.remaining)] + rest)
  {
    if rest != [] && rest[0].price == o.price {
      assert forall i, j | 0 <= i < j < |rest| - 1 :: rest[1..][i] == rest[i + 1] && rest[1..][j] == rest[j + 1];
      ClimbsHead(side, Rung(o.price, o.remaining + rest[0].size), rest[1..]);
    } else {
      ClimbsHead(side, Rung(o.price, o.remaining), rest);
    }
  }

  lemma {:induction false} SortedTail(side: Side, s: seq<OrderData>)
    requires Sorted(side, s) && s != []
    ensures Sorted(side, s[1..]) && (|s| > 1 ==> !Better(side, s[1].price, s[0].price))
  {
  }

  lemma {:induction false} LadderClimbs(side: Side, s: seq<OrderData>)
    requires Sorted(side, s)
    ensures Climbs(side, Ladder(s))
  {
    if s != [] {
      SortedTail(side, s);
      LadderClimbs(side, s[1..]);
      LadderHead(s[1..]);
      LadderGrows(side, s[0], Ladder(s[1..]));
    }
  }

  /** Sizes of a ladder with distinct prices. */
  predicate Exact(ladder: seq<Rung>, s: seq<OrderData>) {
    forall r | r in ladder :: HasPrice(s, r.price) && r.size == QuantityAt(s, r.price)
  }

  predicate Covers(ladder: seq<Rung>, s: seq<OrderData>) {
    forall x | x in s :: exists r | r in ladder :: r.price == x.price
  }

  lemma {:induction false} HasPriceLonger(s: seq<OrderData>, p: Price)
    requires s != []
    ensures HasPrice(s, p) <==> s[0].price == p || HasPrice(s[1..], p)
  {
    assert s == [s[0]] + s[1..];
    assert s[0] in s;
  }

  /** The new order's price is the first rung's. */
  lemma {:induction false} ExactMerge(s: seq<OrderData>, first: Rung, others: seq<Rung>)
    requires s != [] && first.price == s[0].price
    requires Exact([first] + others, s[1..])
    requires forall r | r in others :: r.price != first.price
    ensures Exact([Rung(s[0].price, s[0].remaining + first.size)] + others, s)
  {
    assert first in [first] + others;
    forall r | r in others ensures HasPrice(s, r.price) && r.size == QuantityAt(s, r.price) {
      assert r in [first] + others;
      HasPriceLonger(s, r.price);
    }
    HasPriceLonger(s, s[0].price);
  }

  /** The new order's price is not on the ladder yet. */
  lemma {:induction false} ExactPush(s: seq<OrderData>, rest: seq<Rung>)
    requires s != [] && Exact(rest, s[1..]) && Covers(rest, s[1..])
    requires forall r | r in rest :: r.price != s[0].price
    ensures Exact([Rung(s[0].price, s[0].remaining)] + rest, s)
  {
    assert !HasPrice(s[1..], s[0].price);
    NothingAt(s[1..], s[0].price);
    forall r | r in rest ensures HasPrice(s, r.price) && r.size == QuantityAt(s, r.price) {
      HasPriceLonger(s, r.price);
    }
    HasPriceLonger(s, s[0].price);
  }

  lemma {:induction false} LadderCovers(s: seq<OrderData>)
    ensures Covers(Ladder(s), s)
  {
    if s != [] {
      var rest, ladder := Ladder(s[1..]), Ladder(s);
      LadderCovers(s[1..]);
      assert s == [s[0]] + s[1..];
      forall x | x in s ensures exists r | r in ladder :: r.price == x.price {
        if x == s[0] {
          assert ladder[0] in ladder;
        } else {
          var r :| r in rest && r.price == x.price;
          if r in ladder {
          } else {
            assert rest == [rest[0]] + rest[1..] && r == rest[0] && ladder[0] in ladder;
          }
        }
      }
    }
  }

  lemma {:induction false} FirstIsAlone(side: Side, first: Rung, others: seq<Rung>)
    requires Climbs(side, [first] + others)
    ensures forall r | r in others :: r.price != first.price
  {
    var ladder := [first] + others;
    forall r | r in others ensures r.price != first.price {
      var i :| 0 <= i < |others| && others[i] == r;
      assert Better(side, ladder[0].price, ladder[i + 1].price);
    }
  }

  lemma {:induction false} LadderExact(side: Side, s: seq<OrderData>)
    requires s != [] && Climbs(side, Ladder(s)) && Climbs(side, Ladder(s[1..]))
    requires Exact(Ladder(s[1..]), s[1..]) && Covers(Ladder(s[1..]), s[1..])
    ensures Exact(Ladder(s), s)
  {
    var rest := Ladder(s[1..]);
    if rest != [] && rest[0].price == s[0].price {
      assert rest == [rest[0]] + rest[1..];
      FirstIsAlone(side, rest[0], rest[1..]);
      ExactMerge(s, rest[0], rest[1..]);
    } else {
      FirstIsAlone(side, Rung(s[0].price, s[0].remaining), rest);
      ExactPush(s, rest);
    }
  }

  /** The ladder of a sorted side is strictly ordered and has a rung for exactly the prices
      present, each with exactly the quantity resting there. */
  lemma {:induction false} LadderIsExact(side: Side, s: seq<OrderData>)
    requires Sorted(side, s)
    ensures Climbs(side, Ladder(s)) && Exact(Ladder(s), s) && Covers(Ladder(s), s)
  {
    LadderClimbs(side, s);
    LadderCovers(s);
    if s != [] {
      LadderIsExact(side, s[1..]);
      LadderExact(side, s);
    }
  }

  // ---------------------------------------------------------------- publishing

  /** Snapshot entries of one side: one per rung, positions counted from 1. */
  function Entries(etype: EntryType, ladder: seq<Rung>): seq<Entry> {
    seq(|ladder|, i requires 0 <= i < |ladder| => Entry(etype, ladder[i].price, ladder[i].size, i + 1))
  }

  /** The snapshot of a state: bids, then asks. */
  function Snapshot(e: State): seq<Entry> {
    Entries(Bid, Ladder(e.bids)) + Entries(Offer, Ladder(e.asks))
  }

  /** All orders of one price in front of worse ones make one rung. */
  lemma {:induction false} LadderRun(s: seq<OrderData>, rest: seq<OrderData>, p: Price)
    requires s != [] && (forall x | x in s :: x.price == p) && (rest != [] ==> rest[0].price != p)
    ensures Ladder(s + rest) == [Rung(p, TotalRemaining(s))] + Ladder(rest)
  {
    assert s[0] in s;
    assert (s + rest)[1..] == s[1..] + rest;
    LadderHead(rest);
    if |s| == 1 {
      assert s[1..] + rest == rest;
    } else {
      LadderRun(s[1..], rest, p);
    }
  }

  lemma {:induction false} TotalSplit(a: seq<OrderData>, b: seq<OrderData>)
    ensures TotalRemaining(a + b) == TotalRemaining(a) + TotalRemaining(b)
  {
    if a == [] {
      assert a + b == b;
    } else {
      assert (a + b)[1..] == a[1..] + b;
      TotalSplit(a[1..], b);
    }
  }

  /** The total of a level whose orders have these values, order by order. */
  method LevelTotal(orders: seq<Order>, ghost filed: seq<OrderData>) returns (total: Quantity)
    requires |orders| == |filed| && forall i | 0 <= i < |orders| :: orders[i].remaining == filed[i].remaining
    ensures total == TotalRemaining(filed)
  {
    total := 0;
    var j := 0;
    while j < |orders|
      invariant j <= |orders| && total == TotalRemaining(filed[..j])
    {
      TotalNext(filed, j);
      total := total + orders[j].remaining;
      j := j + 1;
    }
    assert filed[..j] == filed;
  }

  lemma {:induction false} TotalNext(s: seq<OrderData>, j: nat)
    requires j < |s|
    ensures TotalRemaining(s[..j + 1]) == TotalRemaining(s[..j]) + s[j].remaining
  {
    assert s[..j + 1] == s[..j] + [s[j]];
    TotalSplit(s[..j], [s[j]]);
    assert [s[j]][1..] == [];
  }

  /** The rung of a run of orders at one price, and the ladder of what follows. */
  lemma {:induction false} LadderAt(datas: seq<OrderData>, k: nat, n: nat, p: Price)
    requires n > 0 && k + n <= |datas| && forall i | k <= i < k + n :: datas[i].price == p
    requires k + n < |datas| ==> datas[k + n].price != p
    ensures Ladder(datas[k..]) == [Rung(p, TotalRemaining(datas[k..k + n]))] + Ladder(datas[k + n..])
  {
    var first, rest := datas[k..k + n], datas[k + n..];
    assert datas[k..] == first + rest;
    forall x | x in first ensures x.price == p {
      var i :| 0 <= i < n && first[i] == x;
      assert datas[k + i].price == p;
    }
    LadderRun(first, rest, p);
  }

  /** Writing the next rung of a ladder. */
  lemma {:induction false} EntriesNext(etype: EntryType, ladder: seq<Rung>, l: nat, r: Rung, rest: seq<Rung>)
    requires l <= |ladder| && ladder[l..] == [r] + rest
    ensures l < |ladder| && ladder[l + 1..] == rest
    ensures Entries(etype, ladder)[..l + 1] == Entries(etype, ladder)[..l] + [Entry(etype, r.price, r.size, l + 1)]
  {
    assert |ladder[l..]| > 0 && ladder[l] == ladder[l..][0] == r;
    assert ladder[l + 1..] == ladder[l..][1..];
  }

  /** The values of a side under its keys. */
  predicate UnderKeys(keys: seq<Price>, datas: seq<OrderData>) {
    |keys| == |datas| && forall i | 0 <= i < |keys| :: datas[i].price == keys[i]
  }

  /** The key at the position where a level starts is the price of that level. */
  lemma {:induction false} NextKey(levels: seq<Level>, l: nat, refs: seq<Order>, keys: seq<Price>, k: nat)
    requires (forall i | 0 <= i < |levels| :: levels[i].orders != []) && l <= |levels|
    requires Holds(levels[l..], refs, keys, k) && k < |keys|
    ensures l < |levels| && keys[k] == levels[l].price
  {
    assert keys[k] == keys[k..][0];
    if l < |levels| {
      var _ := LevelAt(levels, l, refs, keys, k);
    }
  }

  /** One pass of the publishing loop, on values: the rung of level l and what follows. */
  lemma {:induction false} PublishNext(side: Side, levels: seq<Level>, l: nat, refs: seq<Order>, keys: seq<Price>, datas: seq<OrderData>, k: nat) returns (next: nat)
    requires Shaped(side, levels) && l < |levels| && Holds(levels[l..], refs, keys, k) && UnderKeys(keys, datas)
    ensures next == k + |levels[l].orders| && Holds(levels[l + 1..], refs, keys, next) && refs[k..next] == levels[l].orders
    ensures Ladder(datas[k..]) == [Rung(levels[l].price, TotalRemaining(datas[k..next]))] + Ladder(datas[next..])
  {
    next := LevelAt(levels, l, refs, keys, k);
    if next < |keys| {
      NextKey(levels, l + 1, refs, keys, next);
      assert Better(side, levels[l].price, levels[l + 1].price);
    }
    LadderAt(datas, k, |levels[l].orders|, levels[l].price);
  }

  /** The values still describe the objects. */
  ghost predicate Describe(refs: seq<Order>, datas: seq<OrderData>)
    reads refs
  {
    |refs| == |datas| && forall i | 0 <= i < |refs| :: refs[i].remaining == datas[i].remaining
  }

  lemma {:induction false} DescribePart(refs: seq<Order>, datas: seq<OrderData>, k: nat, orders: seq<Order>) returns (filed: seq<OrderData>)
    requires Describe(refs, datas) && k + |orders| <= |refs| && refs[k..k + |orders|] == orders
    ensures filed == datas[k..k + |orders|]
    ensures forall i | 0 <= i < |orders| :: orders[i].remaining == filed[i].remaining
  {
    filed := datas[k..k + |orders|];
    assert forall i | 0 <= i < |orders| :: orders[i] == refs[k..k + |orders|][i] == refs[k + i];
  }

  /** The publishing loop over one side writes exactly the rungs of its ladder, in order. */
  method PublishSide(etype: EntryType, table: BookSide, ghost datas: seq<OrderData>) returns (entries: seq<Entry>)
    requires table.Valid() && datas == table.Data()
    ensures entries == Entries(etype, Ladder(datas))
  {
    ghost var refs, keys := Flat(table.levels), Keys(table.levels);
    assert datas[0..] == datas && refs[0..] == refs && keys[0..] == keys && table.levels[0..] == table.levels;
    assert Ladder(datas)[0..] == Ladder(datas);
    entries := PublishLevels(etype, table.side, table.levels, refs, keys, datas);
  }

  /** The first l levels, k orders, have been written. */
  predicate Published(etype: EntryType, levels: seq<Level>, l: nat, refs: seq<Order>, keys: seq<Price>,
                      datas: seq<OrderData>, k: nat, entries: seq<Entry>) {
    var ladder := Ladder(datas);
    && l <= |levels| && Holds(levels[l..], refs, keys, k) && UnderKeys(keys, datas)
    && l <= |ladder| && Ladder(datas[k..]) == ladder[l..]
    && entries == Entries(etype, ladder)[..l]
  }

  lemma {:induction false} PublishedNext(etype: EntryType, side: Side, levels: seq<Level>, l: nat, refs: seq<Order>,
                                         keys: seq<Price>, datas: seq<OrderData>, k: nat, entries: seq<Entry>) returns (n: nat, e: Entry)
    requires Shaped(side, levels) && l < |levels| && Published(etype, levels, l, refs, keys, datas, k, entries)
    ensures n == |levels[l].orders| && k + n <= |refs| == |datas| && refs[k..k + n] == levels[l].orders
    ensures e == Entry(etype, levels[l].price, TotalRemaining(datas[k..k + n]), l + 1)
    ensures Published(etype, levels, l + 1, refs, keys, datas, k + n, entries + [e])
  {
    n := |levels[l].orders|;
    var next := PublishNext(side, levels, l, refs, keys, datas, k);
    var total := TotalRemaining(datas[k..next]);
    e := Entry(etype, levels[l].price, total, l + 1);
    EntriesNext(etype, Ladder(datas), l, Rung(levels[l].price, total), Ladder(datas[next..]));
  }

  lemma {:induction false} PublishedAll(etype: EntryType, levels: seq<Level>, refs: seq<Order>, keys: seq<Price>,
                                        datas: seq<OrderData>, k: nat, entries: seq<Entry>)
    requires Published(etype, levels, |levels|, refs, keys, datas, k, entries)
    ensures entries == Entries(etype, Ladder(datas))
  {
    assert levels[|levels|..] == [] && datas[k..] == [];
  }

  /** The entry of a level whose orders have these values. */
  method LevelEntry(etype: EntryType, level: Level, position: nat, ghost filed: seq<OrderData>) returns (entry: Entry)
    requires |level.orders| == |filed| && forall i | 0 <= i < |filed| :: level.orders[i].remaining == filed[i].remaining
    ensures entry == Entry(etype, level.price, TotalRemaining(filed), position)
  {
    var total := LevelTotal(level.orders, filed);
    entry := Entry(etype, level.price, total, position);
  }

  /** The entry of level l, behind k orders already published. */
  method PublishLevel(etype: EntryType, ghost side: Side, levels: seq<Level>, l: nat, position: nat, ghost entries: seq<Entry>,
                      ghost refs: seq<Order>, ghost keys: seq<Price>, ghost datas: seq<OrderData>, ghost k: nat)
    returns (entry: Entry, ghost k': nat)
    requires Shaped(side, levels) && l < |levels| && position == l + 1
    requires Published(etype, levels, l, refs, keys, datas, k, entries) && Describe(refs, datas)
    ensures Published(etype, levels, l + 1, refs, keys, datas, k', entries + [entry])
  {
    ghost var n, e := PublishedNext(etype, side, levels, l, refs, keys, datas, k, entries);
    k' := k + n;
    ghost var filed := DescribePart(refs, datas, k, levels[l].orders);
    entry := LevelEntry(etype, levels[l], position, filed);
    assert entry == e;
  }

  method PublishLevels(etype: EntryType, ghost side: Side, levels: seq<Level>,
                       ghost refs: seq<Order>, ghost keys: seq<Price>, ghost datas: seq<OrderData>)
    returns (entries: seq<Entry>)
    requires Shaped(side, levels) && Published(etype, levels, 0, refs, keys, datas, 0, []) && Describe(refs, datas)
    ensures entries == Entries(etype, Ladder(datas))
  {
    ghost var k: nat := 0;
    entries := [];
    var position: nat, l: nat := 1, 0;
    while l < |levels|
      invariant l <= |levels| && position == l + 1 && Published(etype, levels, l, refs, keys, datas, k, entries)
      invariant allocated(refs) && Describe(refs, datas)
    {
      var entry;
      entry, k := PublishLevel(etype, side, levels, l, position, entries, refs, keys, datas, k);
      entries := entries + [entry];
      position := position + 1;
      l := l + 1;
    }
    PublishedAll(etype, levels, refs, keys, datas, k, entries);
  }

  /** A snapshot of both sides: bids with positions from 1, then asks with positions from 1. */
  method PublishSnapshot(bidMap: BookSide, askMap: BookSide, ghost e: State) returns (entries: seq<Entry>)
    requires bidMap.Valid() && askMap.Valid() && bidMap.Data() == e.bids && askMap.Data() == e.asks
    ensures entries == Snapshot(e)
  {
    assert allocated(Flat(askMap.levels));
    var bids := PublishSide(Bid, bidMap, e.bids);
    var asks := PublishSide(Offer, askMap, e.asks);
    entries := bids + asks;
  }
}
