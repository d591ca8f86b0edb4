/** The order book of one instrument: insertion, cancellation and the risk scan over the
    two sides, each tied to its meaning on the flattened side. */
module OrderBooks {
  import opened Sequences
  import opened Orders
  import opened Matching
  import opened PriceTime
  import opened Engine
  import opened BookObjects

  // ---------------------------------------------------------------- levels and the flat side

  lemma {:induction false} FlatCons(l: Level, tail: seq<Level>)
    ensures Flat([l] + tail) == l.orders + Flat(tail)
    ensures Keys([l] + tail) == Times(l.price, |l.orders|) + Keys(tail)
  {
    assert ([l] + tail)[1..] == tail;
  }

  lemma {:induction false} FlatConcat(a: seq<Level>, b: seq<Level>)
    ensures Flat(a + b) == Flat(a) + Flat(b) && Keys(a + b) == Keys(a) + Keys(b)
  {
    if a == [] {
      assert a + b == b;
    } else {
      var front, tail := a[0], a[1..];
      FlatConcat(tail, b);
      FlatCons(front, tail);
      FlatCons(front, tail + b);
      assert a == [front] + tail;
      Associate([front], tail, b);
      Associate(front.orders, Flat(tail), Flat(b));
      Associate(Times(front.price, |front.orders|), Keys(tail), Keys(b));
    }
  }

  /** Every key of the flat side is the price of some level. */
  lemma {:induction false} KeyOfLevel(levels: seq<Level>, i: nat) returns (l: nat)
    requires i < |Keys(levels)|
    ensures l < |levels| && Keys(levels)[i] == levels[l].price
  {
    if i < |levels[0].orders| {
      l := 0;
    } else {
      var l' := KeyOfLevel(levels[1..], i - |levels[0].orders|);
      l := l' + 1;
    }
  }

  lemma {:induction false} KeysSorted(side: Side, levels: seq<Level>, i: nat, j: nat)
    requires Shaped(side, levels) && i < j < |Keys(levels)|
    ensures !Better(side, Keys(levels)[j], Keys(levels)[i])
  {
    var n := |levels[0].orders|;
    if i >= n {
      KeysSorted(side, levels[1..], i - n, j - n);
    } else if j >= n {
      var l := KeyOfLevel(levels[1..], j - n);
      assert levels[1..][l] == levels[l + 1];
    }
  }

  /** How many of the first keys are p. */
  function Leading(ks: seq<Price>, p: Price): nat {
    if ks == [] || ks[0] != p then 0 else 1 + Leading(ks[1..], p)
  }

  lemma {:induction false} LeadingRun(n: nat, p: Price, rest: seq<Price>)
    requires rest == [] || rest[0] != p
    ensures Leading(Times(p, n) + rest, p) == n
  {
    if n > 0 {
      LeadingRun(n - 1, p, rest);
      assert (Times(p, n) + rest)[1..] == Times(p, n - 1) + rest;
    }
  }

  /** The length of the front level can be read off the keys. */
  lemma {:induction false} FrontLength(side: Side, levels: seq<Level>)
    requires Shaped(side, levels) && levels != []
    ensures |levels[0].orders| == Leading(Keys(levels), levels[0].price) && Keys(levels)[0] == levels[0].price
  {
    var price, rest := levels[0].price, Keys(levels[1..]);
    if rest != [] {
      var l := KeyOfLevel(levels[1..], 0);
      assert levels[1..][l] == levels[l + 1];
    }
    LeadingRun(|levels[0].orders|, price, rest);
  }

  /** The flat side and its keys determine the levels: nothing is lost by flattening. */
  lemma {:induction false} LevelsDetermined(side: Side, a: seq<Level>, b: seq<Level>)
    requires Shaped(side, a) && Shaped(side, b) && Flat(a) == Flat(b) && Keys(a) == Keys(b)
    ensures a == b
  {
    if a != [] && b != [] {
      FrontLength(side, a);
      FrontLength(side, b);
      var n := |a[0].orders|;
      assert a[0].orders == Flat(a)[..n] == Flat(b)[..n] == b[0].orders;
      assert Flat(a[1..]) == Flat(a)[n..] && Flat(b[1..]) == Flat(b)[n..];
      assert Keys(a[1..]) == Keys(a)[n..] && Keys(b[1..]) == Keys(b)[n..];
      LevelsDetermined(side, a[1..], b[1..]);
      assert a == [a[0]] + a[1..] && b == [b[0]] + b[1..];
    }
  }

  // ---------------------------------------------------------------- insertion

  /** The level map after appending o to the queue of its price, creating the level if needed. */
  function Put(side: Side, levels: seq<Level>, o: Order, price: Price): seq<Level> {
    if levels == [] || Better(side, price, levels[0].price) then [Level(price, [o])] + levels
    else if levels[0].price == price then [Level(price, levels[0].orders + [o])] + levels[1..]
    else [levels[0]] + Put(side, levels[1..], o, price)
  }

  /** s with x at position k. */
  function With<T>(s: seq<T>, k: nat, x: T): seq<T>
    requires k <= |s|
  {
    s[..k] + [x] + s[k..]
  }

  /** A split point of the keys: up to it at least as good as price, from it strictly worse. */
  ghost predicate SplitsAt(side: Side, ks: seq<Price>, price: Price, k: nat) {
    && k <= |ks|
    && (forall i | 0 <= i < k :: !Better(side, price, ks[i]))
    && (forall i | k <= i < |ks| :: Better(side, price, ks[i]))
  }

  lemma {:induction false} AllKeysWorse(side: Side, levels: seq<Level>, price: Price)
    requires forall i | 0 <= i < |levels| :: Better(side, price, levels[i].price)
    ensures SplitsAt(side, Keys(levels), price, 0)
  {
    forall i | 0 <= i < |Keys(levels)| ensures Better(side, price, Keys(levels)[i]) {
      var l := KeyOfLevel(levels, i);
    }
  }

  lemma {:induction false} SplitsBehind(side: Side, front: seq<Price>, ks: seq<Price>, price: Price, k: nat)
    requires SplitsAt(side, ks, price, k) && forall i | 0 <= i < |front| :: !Better(side, price, front[i])
    ensures SplitsAt(side, front + ks, price, |front| + k)
  {
  }

  lemma {:induction false} WithBehind<T>(front: seq<T>, s: seq<T>, k: nat, x: T)
    requires k <= |s|
    ensures front + With(s, k, x) == With(front + s, |front| + k, x)
  {
  }

  ghost predicate PutsAt(side: Side, levels: seq<Level>, o: Order, price: Price, k: nat) {
    && SplitsAt(side, Keys(levels), price, k)
    && Flat(Put(side, levels, o, price)) == With(Flat(levels), k, o)
    && Keys(Put(side, levels, o, price)) == With(Keys(levels), k, price)
  }

  lemma {:induction false} PutInFront(side: Side, levels: seq<Level>, o: Order, price: Price)
    requires Shaped(side, levels) && (levels == [] || Better(side, price, levels[0].price))
    ensures PutsAt(side, levels, o, price, 0)
  {
    AllKeysWorse(side, levels, price);
    FlatCons(Level(price, [o]), levels);
    assert With(Flat(levels), 0, o) == [o] + Flat(levels);
    assert With(Keys(levels), 0, price) == [price] + Keys(levels);
    assert Times(price, 1) == [price];
  }

  /** Every level behind the front one has a worse price. */
  predicate Behind(side: Side, front: Level, tail: seq<Level>) {
    forall i | 0 <= i < |tail| :: Better(side, front.price, tail[i].price)
  }

  lemma {:induction false} ShapedCons(side: Side, front: Level, tail: seq<Level>)
    ensures Shaped(side, [front] + tail) <==> front.orders != [] && Behind(side, front, tail) && Shaped(side, tail)
  {
    var levels := [front] + tail;
    if Shaped(side, levels) {
      assert levels[0] == front && forall i | 0 <= i < |tail| :: tail[i] == levels[i + 1];
    }
    if front.orders != [] && Behind(side, front, tail) && Shaped(side, tail) {
      forall i, j | 0 <= i < j < |levels| ensures Better(side, levels[i].price, levels[j].price) {
        assert levels[j] == tail[j - 1] && (i > 0 ==> levels[i] == tail[i - 1]);
      }
    }
  }

  lemma {:induction false} PutAtFront(side: Side, levels: seq<Level>, front: Level, tail: seq<Level>, o: Order, price: Price)
    requires Shaped(side, levels) && levels == [front] + tail && front.price == price
    ensures PutsAt(side, levels, o, price, |front.orders|)
  {
    var run := Times(price, |front.orders|);
    ShapedCons(side, front, tail);
    AllKeysWorse(side, tail, price);
    FlatCons(front, tail);
    SplitsBehind(side, run, Keys(tail), price, 0);
    FlatCons(Level(price, front.orders + [o]), tail);
    assert Times(price, |front.orders + [o]|) == run + [price];
    assert With(Flat(levels), |front.orders|, o) == front.orders + [o] + Flat(tail);
    assert With(Keys(levels), |front.orders|, price) == run + [price] + Keys(tail);
  }

  lemma {:induction false} FlatBehind(front: Level, tail: seq<Level>, put: seq<Level>, o: Order, k': nat, k: nat)
    requires k == |front.orders| + k' && k' <= |Flat(tail)| && Flat(put) == With(Flat(tail), k', o)
    ensures k <= |Flat([front] + tail)| && Flat([front] + put) == With(Flat([front] + tail), k, o)
  {
    FlatCons(front, put);
    FlatCons(front, tail);
    WithBehind(front.orders, Flat(tail), k', o);
  }

  lemma {:induction false} KeysBehind(front: Level, tail: seq<Level>, put: seq<Level>, price: Price, k': nat, k: nat)
    requires k == |front.orders| + k' && k' <= |Keys(tail)| && Keys(put) == With(Keys(tail), k', price)
    ensures k <= |Keys([front] + tail)| && Keys([front] + put) == With(Keys([front] + tail), k, price)
  {
    FlatCons(front, put);
    FlatCons(front, tail);
    WithBehind(Times(front.price, |front.orders|), Keys(tail), k', price);
  }

  lemma {:induction false} SplitBehind(side: Side, front: Level, tail: seq<Level>, price: Price, k': nat, k: nat)
    requires k == |front.orders| + k' && SplitsAt(side, Keys(tail), price, k') && Better(side, front.price, price)
    ensures SplitsAt(side, Keys([front] + tail), price, k)
  {
    FlatCons(front, tail);
    SplitsBehind(side, Times(front.price, |front.orders|), Keys(tail), price, k');
  }

  lemma {:induction false} PutBehindFront(side: Side, levels: seq<Level>, front: Level, tail: seq<Level>, o: Order, price: Price, k': nat, k: nat)
    requires levels == [front] + tail && k == |front.orders| + k'
    requires Better(side, front.price, price) && PutsAt(side, tail, o, price, k')
    ensures PutsAt(side, levels, o, price, k)
  {
    var put := Put(side, tail, o, price);
    PutCons(side, front, tail, o, price);
    FlatBehind(front, tail, put, o, k', k);
    KeysBehind(front, tail, put, price, k', k);
    SplitBehind(side, front, tail, price, k', k);
  }

  lemma {:induction false} PutCons(side: Side, front: Level, tail: seq<Level>, o: Order, price: Price)
    requires Better(side, front.price, price)
    ensures Put(side, [front] + tail, o, price) == [front] + Put(side, tail, o, price)
  {
    assert ([front] + tail)[1..] == tail;
  }

  /** Insertion into the levels is insertion at one position of the flat side. */
  lemma {:induction false} PutPosition(side: Side, levels: seq<Level>, o: Order, price: Price) returns (k: nat)
    requires Shaped(side, levels)
    ensures PutsAt(side, levels, o, price, k)
  {
    if levels == [] || Better(side, price, levels[0].price) {
      k := 0;
      PutInFront(side, levels, o, price);
    } else {
      var front, tail := levels[0], levels[1..];
      assert levels == [front] + tail;
      if front.price == price {
        k := |front.orders|;
        PutAtFront(side, levels, front, tail, o, price);
      } else {
        var k' := PutPosition(side, tail, o, price);
        k := |front.orders| + k';
        PutBehindFront(side, levels, front, tail, o, price, k', k);
      }
    }
  }

  /** An insertion behind a better price keeps everything behind that price. */
  lemma {:induction false} PutBehind(side: Side, front: Level, tail: seq<Level>, o: Order, price: Price)
    requires Behind(side, front, tail) && Better(side, front.price, price)
    ensures Behind(side, front, Put(side, tail, o, price))
  {
    if tail != [] && !Better(side, price, tail[0].price) && tail[0].price != price {
      PutBehind(side, front, tail[1..], o, price);
    }
  }

  lemma {:induction false} PutShaped(side: Side, levels: seq<Level>, o: Order, price: Price)
    requires Shaped(side, levels)
    ensures Shaped(side, Put(side, levels, o, price))
  {
    if levels == [] {
    } else {
      var front, tail := levels[0], levels[1..];
      assert levels == [front] + tail;
      ShapedCons(side, front, tail);
      if Better(side, price, front.price) {
        ShapedCons(side, Level(price, [o]), levels);
      } else if front.price == price {
        ShapedCons(side, Level(price, front.orders + [o]), tail);
      } else {
        PutShaped(side, tail, o, price);
        PutBehind(side, front, tail, o, price);
        ShapedCons(side, front, Put(side, tail, o, price));
      }
    }
  }

  /** On values, the insertion point decides where the order goes. */
  lemma {:induction false} InsertIs(side: Side, s: seq<OrderData>, o: OrderData, k: nat)
    requires k <= |s|
    requires forall i | 0 <= i < k :: !Better(side, o.price, s[i].price)
    requires forall i | k <= i < |s| :: Better(side, o.price, s[i].price)
    ensures Insert(side, s, o) == With(s, k, o)
  {
    if k > 0 {
      var front, tail := s[0], s[1..];
      assert s == [front] + tail && !Better(side, o.price, front.price);
      assert forall i | 0 <= i < |tail| :: tail[i] == s[i + 1];
      InsertIs(side, tail, o, k - 1);
      WithBehind([front], tail, k - 1, o);
    } else if s != [] {
      assert Better(side, o.price, s[0].price);
      assert With(s, 0, o) == [o] + s;
    }
  }

  lemma {:induction false} WithAt<T>(s: seq<T>, k: nat, x: T, i: nat)
    requires k <= |s| && i <= |s|
    ensures With(s, k, x)[i] == if i < k then s[i] else if i == k then x else s[i - 1]
  {
  }

  /** The levels after an insertion are in order, correctly priced and free of duplicates. */
  lemma {:induction false} PutValid(side: Side, levels: seq<Level>, o: Order, k: nat)
    requires Priced(levels) && NoDuplicates(Flat(levels)) && o !in Flat(levels)
    requires PutsAt(side, levels, o, o.price, k)
    ensures var ls := Put(side, levels, o, o.price); Priced(ls) && NoDuplicates(Flat(ls))
  {
    var ls := Put(side, levels, o, o.price);
    var refs, keys := Flat(levels), Keys(levels);
    forall i | 0 <= i < |Flat(ls)| ensures Flat(ls)[i].price == Keys(ls)[i] {
      WithAt(refs, k, o, i);
      WithAt(keys, k, o.price, i);
    }
    forall i, j | 0 <= i < j < |Flat(ls)| ensures Flat(ls)[i] != Flat(ls)[j] {
      WithAt(refs, k, o, i);
      WithAt(refs, k, o, j);
    }
  }

  /** On values the insertion is the one of the price-time order. */
  lemma {:induction false} PutData(side: Side, levels: seq<Level>, o: Order, k: nat)
    requires Priced(levels) && PutsAt(side, levels, o, o.price, k)
    ensures Datas(Flat(Put(side, levels, o, o.price))) == Insert(side, Datas(Flat(levels)), o.Data())
  {
    var refs := Flat(levels);
    InsertIs(side, Datas(refs), o.Data(), k);
    forall i | 0 <= i <= |refs| ensures Datas(With(refs, k, o))[i] == With(Datas(refs), k, o.Data())[i] {
      WithAt(refs, k, o, i);
      WithAt(Datas(refs), k, o.Data(), i);
    }
  }

  lemma {:induction false} PutMembers(side: Side, levels: seq<Level>, o: Order, k: nat)
    requires PutsAt(side, levels, o, o.price, k)
    ensures forall x :: x in Flat(Put(side, levels, o, o.price)) <==> x == o || x in Flat(levels)
  {
    var refs := Flat(levels);
    assert refs == refs[..k] + refs[k..];
  }

  /** Everything an insertion into a side promises. */
  lemma {:induction false} PutOrder(side: Side, levels: seq<Level>, o: Order)
    requires Shaped(side, levels) && Priced(levels) && NoDuplicates(Flat(levels)) && o !in Flat(levels)
    ensures var ls := Put(side, levels, o, o.price);
      && Shaped(side, ls) && Priced(ls) && NoDuplicates(Flat(ls))
      && Datas(Flat(ls)) == Insert(side, Datas(Flat(levels)), o.Data())
      && (forall x :: x in Flat(ls) <==> x == o || x in Flat(levels))
  {
    var k := PutPosition(side, levels, o, o.price);
    PutShaped(side, levels, o, o.price);
    PutValid(side, levels, o, k);
    PutData(side, levels, o, k);
    PutMembers(side, levels, o, k);
  }

  /** Appends the order to the queue of its price, opening a level when there is none. */
  method InsertOrder(table: BookSide, o: Order)
    requires table.Valid() && o !in Flat(table.levels)
    modifies table`levels
    ensures table.Valid()
    ensures table.Data() == Insert(table.side, old(table.Data()), o.Data())
    ensures forall x | x in Flat(table.levels) :: x == o || x in old(Flat(table.levels))
  {
    PutOrder(table.side, table.levels, o);
    ghost var data := table.Data();
    table.levels := Put(table.side, table.levels, o, o.price);
    assert Datas(Flat(table.levels)) == Insert(table.side, data, o.Data());
  }

  // ---------------------------------------------------------------- cancellation

  /** Index of the first order with this id, or the length if there is none. */
  function FindId(orders: seq<Order>, id: OrderId): (j: nat)
    ensures j <= |orders|
    ensures forall i | 0 <= i < j :: orders[i].id != id
    ensures j < |orders| ==> orders[j].id == id
  {
    if orders == [] then 0 else if orders[0].id == id then 0 else 1 + FindId(orders[1..], id)
  }

  /** s without position k. */
  function Without<T>(s: seq<T>, k: nat): seq<T>
    requires k < |s|
  {
    s[..k] + s[k + 1..]
  }

  /** Takes order j out of level l, and the level with it if that was its last order. */
  function TakeAt(levels: seq<Level>, l: nat, j: nat): seq<Level>
    requires l < |levels| && j < |levels[l].orders|
  {
    if |levels[l].orders| == 1 then Without(levels, l)
    else levels[l := Level(levels[l].price, Without(levels[l].orders, j))]
  }

  lemma {:induction false} FlatAround(before: seq<Level>, level: Level, after: seq<Level>)
    ensures Flat(before + [level] + after) == Flat(before) + level.orders + Flat(after)
    ensures Keys(before + [level] + after) == Keys(before) + Times(level.price, |level.orders|) + Keys(after)
  {
    Associate(before, [level], after);
    FlatConcat(before, [level] + after);
    FlatCons(level, after);
    Associate(Flat(before), level.orders, Flat(after));
    Associate(Keys(before), Times(level.price, |level.orders|), Keys(after));
  }

  lemma {:induction false} WithoutMiddle<T>(a: seq<T>, b: seq<T>, c: seq<T>, j: nat, k: nat)
    requires j < |b| && k == |a| + j
    ensures Without(a + b + c, k) == a + Without(b, j) + c
  {
  }

  /** What taking order j out of level l does to the flat side. */
  ghost predicate TakesAt(levels: seq<Level>, ls: seq<Level>, k: nat, o: Order) {
    && k < |Flat(levels)| && Flat(levels)[k] == o
    && Flat(ls) == Without(Flat(levels), k) && Keys(ls) == Without(Keys(levels), k)
  }

  lemma {:induction false} WithoutOnly<T>(a: seq<T>, b: seq<T>, c: seq<T>)
    requires |b| == 1
    ensures Without(a + b + c, |a|) == a + c
  {
  }

  /** Erasing a level that holds a single order. */
  lemma {:induction false} TakeLevel(levels: seq<Level>, before: seq<Level>, level: Level, after: seq<Level>, ls: seq<Level>)
    requires levels == before + [level] + after && ls == before + after && |level.orders| == 1
    ensures TakesAt(levels, ls, |Flat(before)|, level.orders[0])
  {
    FlatAround(before, level, after);
    FlatConcat(before, after);
    WithoutOnly(Flat(before), level.orders, Flat(after));
    WithoutOnly(Keys(before), Times(level.price, 1), Keys(after));
  }

  lemma {:induction false} TimesWithout(price: Price, n: nat, j: nat)
    requires j < n
    ensures Without(Times(price, n), j) == Times(price, n - 1)
  {
  }

  /** Taking one order out of a level. */
  lemma {:induction false} TakeFromLevel(levels: seq<Level>, before: seq<Level>, level: Level, after: seq<Level>, j: nat, k: nat,
                                         queue: seq<Order>, ls: seq<Level>)
    requires levels == before + [level] + after && ls == before + [Level(level.price, queue)] + after
    requires j < |level.orders| && queue == Without(level.orders, j) && k == |Flat(before)| + j
    ensures TakesAt(levels, ls, k, level.orders[j])
  {
    FlatAround(before, level, after);
    FlatAround(before, Level(level.price, queue), after);
    WithoutMiddle(Flat(before), level.orders, Flat(after), j, k);
    WithoutMiddle(Keys(before), Times(level.price, |level.orders|), Keys(after), j, k);
    TimesWithout(level.price, |level.orders|, j);
  }

  lemma {:induction false} AtIndex<T>(s: seq<T>, l: nat, x: T)
    requires l < |s|
    ensures s == s[..l] + [s[l]] + s[l + 1..] && s[l := x] == s[..l] + [x] + s[l + 1..]
  {
  }

  lemma {:induction false} TakeAtFlat(levels: seq<Level>, l: nat, j: nat, o: Order, ls: seq<Level>) returns (k: nat)
    requires l < |levels| && j < |levels[l].orders| && o == levels[l].orders[j] && ls == TakeAt(levels, l, j)
    ensures k == |Flat(levels[..l])| + j && TakesAt(levels, ls, k, o)
  {
    k := |Flat(levels[..l])| + j;
    var before, level, after := levels[..l], levels[l], levels[l + 1..];
    var queue := Without(level.orders, j);
    AtIndex(levels, l, Level(level.price, queue));
    if |level.orders| == 1 {
      TakeLevel(levels, before, level, after, ls);
    } else {
      TakeFromLevel(levels, before, level, after, j, k, queue, ls);
    }
  }

  lemma {:induction false} TakeAtShaped(side: Side, levels: seq<Level>, l: nat, j: nat)
    requires Shaped(side, levels) && l < |levels| && j < |levels[l].orders|
    ensures Shaped(side, TakeAt(levels, l, j))
  {
    var ls := TakeAt(levels, l, j);
    if |levels[l].orders| == 1 {
      assert forall i | 0 <= i < |ls| :: ls[i] == levels[if i < l then i else i + 1];
    }
  }

  lemma {:induction false} RemoveIs(s: seq<OrderData>, id: OrderId, k: nat)
    requires k < |s| && s[k].id == id && forall i | 0 <= i < k :: s[i].id != id
    ensures Remove(s, id) == Without(s, k)
  {
    if k > 0 {
      assert s[0].id != id;
      assert forall i | 0 <= i < |s| - 1 :: s[1..][i] == s[i + 1];
      RemoveIs(s[1..], id, k - 1);
    }
  }

  lemma {:induction false} WithoutAt<T>(s: seq<T>, k: nat, i: nat)
    requires k < |s| && i < |s| - 1
    ensures Without(s, k)[i] == s[if i < k then i else i + 1]
  {
  }

  /** One position less keeps the side correctly priced and free of duplicates. */
  lemma {:induction false} WithoutValid(levels: seq<Level>, ls: seq<Level>, k: nat, o: Order)
    requires Priced(levels) && NoDuplicates(Flat(levels)) && TakesAt(levels, ls, k, o)
    ensures Priced(ls) && NoDuplicates(Flat(ls))
  {
    forall i | 0 <= i < |Flat(ls)| ensures Flat(ls)[i].price == Keys(ls)[i] {
      WithoutAt(Flat(levels), k, i);
      WithoutAt(Keys(levels), k, i);
    }
    forall i, j | 0 <= i < j < |Flat(ls)| ensures Flat(ls)[i] != Flat(ls)[j] {
      WithoutAt(Flat(levels), k, i);
      WithoutAt(Flat(levels), k, j);
    }
  }

  lemma {:induction false} TakenMembers(levels: seq<Level>, ls: seq<Level>, k: nat, o: Order)
    requires TakesAt(levels, ls, k, o)
    ensures o in Flat(levels) && forall x | x in Flat(ls) :: x in Flat(levels)
  {
  }

  /** No order before position k has this id. */
  predicate NoneBefore(refs: seq<Order>, k: nat, id: OrderId) {
    k <= |refs| && forall i | 0 <= i < k :: refs[i].id != id
  }

  /** No order before position (l, j) has this id. */
  lemma {:induction false} FirstWithId(levels: seq<Level>, l: nat, j: nat, k: nat, id: OrderId)
    requires l < |levels| && j < |levels[l].orders| && k == |Flat(levels[..l])| + j
    requires forall x | x in Flat(levels[..l]) :: x.id != id
    requires forall i | 0 <= i < j :: levels[l].orders[i].id != id
    ensures NoneBefore(Flat(levels), k, id)
  {
    var before := Flat(levels[..l]);
    AtIndex(levels, l, levels[l]);
    FlatAround(levels[..l], levels[l], levels[l + 1..]);
    forall i | 0 <= i < k ensures Flat(levels)[i].id != id {
      if i < |before| {
        assert Flat(levels)[i] == before[i];
      } else {
        assert Flat(levels)[i] == levels[l].orders[i - |before|];
      }
    }
  }

  lemma {:induction false} DatasWithout(levels: seq<Level>, ls: seq<Level>, k: nat, o: Order)
    requires TakesAt(levels, ls, k, o) && NoneBefore(Flat(levels), k, o.id)
    ensures Datas(Flat(ls)) == Remove(Datas(Flat(levels)), o.id) && HasId(Datas(Flat(levels)), o.id)
  {
    var refs := Flat(levels);
    assert Datas(refs)[k].id == o.id;
    RemoveIs(Datas(refs), o.id, k);
    assert Datas(Without(refs, k)) == Without(Datas(refs), k);
  }

  /** Everything taking an order off a side promises. */
  lemma {:induction false} TakeOrder(side: Side, levels: seq<Level>, l: nat, j: nat, o: Order, ls: seq<Level>)
    requires Shaped(side, levels) && Priced(levels) && NoDuplicates(Flat(levels))
    requires l < |levels| && j < |levels[l].orders| && levels[l].orders[j] == o && ls == TakeAt(levels, l, j)
    requires forall i | 0 <= i < j :: levels[l].orders[i].id != o.id
    requires forall x | x in Flat(levels[..l]) :: x.id != o.id
    ensures Shaped(side, ls) && Priced(ls) && NoDuplicates(Flat(ls))
    ensures Datas(Flat(ls)) == Remove(Datas(Flat(levels)), o.id) && HasId(Datas(Flat(levels)), o.id)
    ensures o in Flat(levels) && forall x | x in Flat(ls) :: x in Flat(levels)
  {
    TakeAtShaped(side, levels, l, j);
    var k := TakeAtFlat(levels, l, j, o, ls);
    FirstWithId(levels, l, j, k, o.id);
    WithoutValid(levels, ls, k, o);
    DatasWithout(levels, ls, k, o);
    TakenMembers(levels, ls, k, o);
  }

  lemma {:induction false} NotFound(levels: seq<Level>, id: OrderId)
    requires forall x | x in Flat(levels) :: x.id != id
    ensures !HasId(Datas(Flat(levels)), id) && Remove(Datas(Flat(levels)), id) == Datas(Flat(levels))
  {
    assert forall i | 0 <= i < |Flat(levels)| :: Flat(levels)[i] in Flat(levels);
    RemoveMissing(Datas(Flat(levels)), id);
  }

  lemma {:induction false} SearchedLonger(levels: seq<Level>, l: nat, id: OrderId)
    requires l < |levels| && forall x | x in Flat(levels[..l]) :: x.id != id
    requires FindId(levels[l].orders, id) == |levels[l].orders|
    ensures forall x | x in Flat(levels[..l + 1]) :: x.id != id
  {
    FlatConcat(levels[..l], [levels[l]]);
    FlatCons(levels[l], []);
    assert levels[..l + 1] == levels[..l] + [levels[l]];
    assert [levels[l]] + [] == [levels[l]];
  }

  /** Searches the levels of one side for the order and takes it off. */
  method CancelOn(table: BookSide, id: OrderId) returns (taken: Order?)
    requires table.Valid()
    modifies table`levels
    ensures table.Valid()
    ensures taken != null <==> HasId(old(table.Data()), id)
    ensures taken == null ==> table.levels == old(table.levels)
    ensures taken != null ==> taken.id == id && taken in old(Flat(table.levels))
    ensures table.Data() == Remove(old(table.Data()), id)
    ensures forall x | x in Flat(table.levels) :: x in old(Flat(table.levels))
  {
    taken := null;
    ghost var data := table.Data();
    var l := 0;
    while l < |table.levels|
      invariant l <= |table.levels| && table.levels == old(table.levels) && table.Valid() && data == table.Data()
      invariant forall x | x in Flat(table.levels[..l]) :: x.id != id
    {
      var orders := table.levels[l].orders;
      var j := FindId(orders, id);
      if j < |orders| {
        taken := orders[j];
        TakeOrder(table.side, table.levels, l, j, taken, TakeAt(table.levels, l, j));
        table.levels := TakeAt(table.levels, l, j);
        assert Datas(Flat(table.levels)) == Remove(data, id);
        return;
      }
      SearchedLonger(table.levels, l, id);
      l := l + 1;
    }
    assert table.levels[..l] == table.levels;
    NotFound(table.levels, id);
  }

  // ---------------------------------------------------------------- the risk scan

  /** The scan of the flat side from position k on decides the whole scan. */
  ghost predicate ScanFrom(o: OrderData, datas: seq<OrderData>, k: nat) {
    k <= |datas| && (ScanSelfMatch(o, datas) <==> ScanSelfMatch(o, datas[k..]))
  }

  /** What the levels say about the orders filed in them. */
  predicate Filing(refs: seq<Order>, keys: seq<Price>, datas: seq<OrderData>) {
    && |refs| == |keys| == |datas|
    && forall i | 0 <= i < |refs| :: datas[i].sender == refs[i].sender && datas[i].price == keys[i]
  }

  lemma {:induction false} ScanNext(o: OrderData, datas: seq<OrderData>, k: nat)
    requires k < |datas| && ScanFrom(o, datas, k) && Crosses(o, datas[k].price)
    ensures if datas[k].sender == o.sender then ScanSelfMatch(o, datas) else ScanFrom(o, datas, k + 1)
  {
    assert datas[k..][1..] == datas[k + 1..];
  }

  /** A non-empty level whose orders start at position k of the side. */
  predicate StandsAt(level: Level, refs: seq<Order>, keys: seq<Price>, k: nat) {
    var n := |level.orders|;
    0 < n && k + n <= |refs| == |keys| && refs[k..k + n] == level.orders && forall i | k <= i < k + n :: keys[i] == level.price
  }

  lemma {:induction false} SuffixParts<T>(s: seq<T>, k: nat, a: seq<T>, b: seq<T>)
    requires k <= |s| && s[k..] == a + b
    ensures k + |a| <= |s| && s[k..k + |a|] == a && s[k + |a|..] == b
  {
    assert s[k + |a|..] == s[k..][|a|..] && s[k..k + |a|] == s[k..][..|a|];
  }

  /** Moving past the first level. */
  lemma {:induction false} HoldsBehind(level: Level, tail: seq<Level>, refs: seq<Order>, keys: seq<Price>, k: nat)
    requires Holds([level] + tail, refs, keys, k) && level.orders != []
    ensures StandsAt(level, refs, keys, k) && Holds(tail, refs, keys, k + |level.orders|)
  {
    var n := |level.orders|;
    var run := Times(level.price, n);
    FlatCons(level, tail);
    SuffixParts(refs, k, level.orders, Flat(tail));
    SuffixParts(keys, k, run, Keys(tail));
    forall i | k <= i < k + n ensures keys[i] == level.price {
      assert keys[k..k + n][i - k] == run[i - k];
    }
  }

  lemma {:induction false} ScanStops(o: OrderData, refs: seq<Order>, keys: seq<Price>, datas: seq<OrderData>, k: nat, price: Price)
    requires Filing(refs, keys, datas) && k < |keys| && keys[k] == price
    requires ScanFrom(o, datas, k) && !Crosses(o, price)
    ensures !ScanSelfMatch(o, datas)
  {
  }

  /** The scan of one order of a level, on values. */
  lemma {:induction false} ScanAt(o: OrderData, refs: seq<Order>, keys: seq<Price>, datas: seq<OrderData>, k: nat, j: nat, orders: seq<Order>, price: Price)
    requires Filing(refs, keys, datas) && j < |orders| && k + |orders| <= |refs| && refs[k..k + |orders|] == orders
    requires keys[k + j] == price && Crosses(o, price) && ScanFrom(o, datas, k + j)
    ensures if orders[j].sender == o.sender then ScanSelfMatch(o, datas) else ScanFrom(o, datas, k + j + 1)
  {
    assert orders[j] == refs[k..k + |orders|][j] == refs[k + j];
    ScanNext(o, datas, k + j);
  }

  /** The queue of one level, which stands at position k of the side. */
  method ScanQueue(level: Level, sender: string, ghost data: OrderData, ghost refs: seq<Order>,
                   ghost keys: seq<Price>, ghost datas: seq<OrderData>, ghost k: nat)
    returns (hit: bool)
    requires sender == data.sender && Filing(refs, keys, datas) && Crosses(data, level.price) && ScanFrom(data, datas, k)
    requires StandsAt(level, refs, keys, k)
    ensures if hit then ScanSelfMatch(data, datas) else ScanFrom(data, datas, k + |level.orders|)
  {
    var j := 0;
    while j < |level.orders|
      invariant j <= |level.orders| && ScanFrom(data, datas, k + j)
    {
      ScanAt(data, refs, keys, datas, k, j, level.orders, level.price);
      if level.orders[j].sender == sender {
        return true;
      }
      j := j + 1;
    }
    hit := false;
  }

  /** One level of the scan, which ends the scan at a price the order does not cross. */
  method ScanLevel(level: Level, sender: string, isLimit: bool, isBuy: bool, price: Price, ghost data: OrderData,
                   ghost refs: seq<Order>, ghost keys: seq<Price>, ghost datas: seq<OrderData>, ghost k: nat, ghost next: nat)
    returns (over: bool, hit: bool)
    requires sender == data.sender && price == data.price && isLimit == (data.otype == Limit) && isBuy == (data.side == Buy)
    requires Filing(refs, keys, datas) && StandsAt(level, refs, keys, k) && ScanFrom(data, datas, k) && next == k + |level.orders|
    ensures if over then hit <==> ScanSelfMatch(data, datas) else ScanFrom(data, datas, next)
  {
    if isLimit {
      var crosses := if isBuy then price >= level.price else price <= level.price;
      if !crosses {
        ScanStops(data, refs, keys, datas, k, level.price);
        return true, false;
      }
    }
    hit := ScanQueue(level, sender, data, refs, keys, datas, k);
    over := hit;
  }

  lemma {:induction false} LevelAt(levels: seq<Level>, l: nat, refs: seq<Order>, keys: seq<Price>, k: nat) returns (next: nat)
    requires l < |levels| && Holds(levels[l..], refs, keys, k) && forall i | 0 <= i < |levels| :: levels[i].orders != []
    ensures next == k + |levels[l].orders| && StandsAt(levels[l], refs, keys, k) && Holds(levels[l + 1..], refs, keys, next)
  {
    next := k + |levels[l].orders|;
    assert levels[l..] == [levels[l]] + levels[l + 1..];
    HoldsBehind(levels[l], levels[l + 1..], refs, keys, k);
  }

  /** Behind the last level there is nothing left to scan. */
  lemma {:induction false} ScanEnds(o: OrderData, refs: seq<Order>, keys: seq<Price>, datas: seq<OrderData>, k: nat)
    requires Filing(refs, keys, datas) && Holds([], refs, keys, k) && ScanFrom(o, datas, k)
    ensures !ScanSelfMatch(o, datas)
  {
  }

  /** Level by level, stopping at the first price the order does not cross. */
  method ScanLevels(levels: seq<Level>, sender: string, isLimit: bool, isBuy: bool, price: Price, ghost data: OrderData,
                    ghost refs: seq<Order>, ghost keys: seq<Price>, ghost datas: seq<OrderData>)
    returns (hit: bool)
    requires sender == data.sender && price == data.price && isLimit == (data.otype == Limit) && isBuy == (data.side == Buy)
    requires Filing(refs, keys, datas) && Holds(levels[0..], refs, keys, 0) && ScanFrom(data, datas, 0)
    requires forall i | 0 <= i < |levels| :: levels[i].orders != []
    ensures hit <==> ScanSelfMatch(data, datas)
  {
    ghost var k: nat := 0;
    var l := 0;
    while l < |levels|
      invariant l <= |levels| && Holds(levels[l..], refs, keys, k) && ScanFrom(data, datas, k)
    {
      ghost var next := LevelAt(levels, l, refs, keys, k);
      var over;
      over, hit := ScanLevel(levels[l], sender, isLimit, isBuy, price, data, refs, keys, datas, k, next);
      if over {
        return;
      }
      k, l := next, l + 1;
    }
    assert levels[l..] == [];
    ScanEnds(data, refs, keys, datas, k);
    hit := false;
  }

  /** The self-match scan of the risk gate. `data` and `datas` are the values of the order and
      of the side. */
  method CheckForSelfMatch(o: Order, table: BookSide, ghost data: OrderData, ghost datas: seq<OrderData>) returns (hit: bool)
    requires table.Valid() && data == o.Data() && datas == table.Data()
    ensures hit <==> ScanSelfMatch(data, datas)
  {
    ghost var refs, keys := Flat(table.levels), Keys(table.levels);
    assert refs[0..] == refs && keys[0..] == keys && table.levels[0..] == table.levels && datas[0..] == datas;
    hit := ScanLevels(table.levels, o.sender, o.otype == Limit, o.side == Buy, o.price, data, refs, keys, datas);
  }
}
