/** The client's price ladders: sorted maps loaded from a snapshot, and the view of the best
    levels drawn from them. */
module ClientLadder {
  import opened Orders
  import opened PriceTime
  import opened Engine
  import opened Runs
  import opened MarketData

  /** What the user interface shows. */
  datatype View = View(bids: seq<Rung>, asks: seq<Rung>, spread: real, midPrice: real)

  /** The entry type that belongs on a ladder. */
  function TypeOf(side: Side): EntryType {
    if side == Buy then Bid else Offer
  }

  /** `ladder[price] = size` on a map kept in price order as a sequence of rungs. */
  function Assign(side: Side, ladder: seq<Rung>, r: Rung): seq<Rung> {
    if ladder == [] || Better(side, r.price, ladder[0].price) then [r] + ladder
    else if ladder[0].price == r.price then [r] + ladder[1..]
    else [ladder[0]] + Assign(side, ladder[1..], r)
  }

  /** One side of a snapshot, entry by entry. */
  function Load(side: Side, entries: seq<Entry>): seq<Rung> {
    if entries == [] then []
    else
      var before, last := Load(side, entries[..|entries| - 1]), entries[|entries| - 1];
      if last.etype == TypeOf(side) then Assign(side, before, Rung(last.price, last.size)) else before
  }

  function Best(ladder: seq<Rung>, depth: nat): seq<Rung> {
    if depth <= |ladder| then ladder[..depth] else ladder
  }

  // ---------------------------------------------------------------- assignment is a map update

  predicate Has(ladder: seq<Rung>, p: Price) {
    exists r | r in ladder :: r.price == p
  }

  lemma {:induction false} AssignHead(side: Side, ladder: seq<Rung>, r: Rung)
    ensures Assign(side, ladder, r) != []
    ensures Assign(side, ladder, r)[0].price == r.price || (ladder != [] && Assign(side, ladder, r)[0] == ladder[0])
  {
  }

  lemma {:induction false} ClimbsTail(side: Side, ladder: seq<Rung>)
    requires Climbs(side, ladder) && ladder != []
    ensures Climbs(side, ladder[1..])
    ensures forall x | x in ladder[1..] :: Better(side, ladder[0].price, x.price)
  {
    forall i, j | 0 <= i < j < |ladder[1..]| ensures Better(side, ladder[1..][i].price, ladder[1..][j].price) {
      assert Better(side, ladder[i + 1].price, ladder[j + 1].price);
    }
  }

  /** Assignment keeps the order of the map, sets exactly its own key and leaves every other
      rung as it is. */
  lemma {:induction false} AssignUpdates(side: Side, ladder: seq<Rung>, r: Rung)
    requires Climbs(side, ladder)
    ensures Climbs(side, Assign(side, ladder, r))
    ensures forall x :: x in Assign(side, ladder, r) <==> x == r || (x in ladder && x.price != r.price)
  {
    if ladder == [] {
    } else {
      assert ladder == [ladder[0]] + ladder[1..];
      ClimbsTail(side, ladder);
      if Better(side, r.price, ladder[0].price) {
        ClimbsHead(side, r, ladder);
      } else if ladder[0].price == r.price {
        assert ladder[1..] != [] ==> ladder[1..][0] in ladder[1..];
        ClimbsHead(side, r, ladder[1..]);
      } else {
        var rest := Assign(side, ladder[1..], r);
        AssignUpdates(side, ladder[1..], r);
        AssignHead(side, ladder[1..], r);
        assert ladder[1..] != [] ==> ladder[1..][0] in ladder[1..];
        ClimbsHead(side, ladder[0], rest);
      }
    }
  }

  /** A price worse than every rung goes to the end. */
  lemma {:induction false} AssignAppends(side: Side, ladder: seq<Rung>, r: Rung)
    requires forall i | 0 <= i < |ladder| :: Better(side, ladder[i].price, r.price)
    ensures Assign(side, ladder, r) == ladder + [r]
  {
    if ladder != [] {
      assert forall i | 0 <= i < |ladder[1..]| :: ladder[1..][i] == ladder[i + 1];
      AssignAppends(side, ladder[1..], r);
      assert ladder == [ladder[0]] + ladder[1..];
    }
  }

  /** The size an entry list gives a price: that of the last entry of the side at it. */
  predicate Quotes(side: Side, entries: seq<Entry>, r: Rung) {
    && entries != []
    && var last := entries[|entries| - 1];
       if last.etype == TypeOf(side) && last.price == r.price then last.size == r.size
       else Quotes(side, entries[..|entries| - 1], r)
  }

  /** Loading any entry list at all: the ladder is in strict price order and shows, for each
      price, the size of the last entry for it, and nothing else. */
  lemma {:induction false} LoadShowsLastQuotes(side: Side, entries: seq<Entry>)
    ensures Climbs(side, Load(side, entries))
    ensures forall r :: r in Load(side, entries) <==> Quotes(side, entries, r)
  {
    if entries != [] {
      var before, last := entries[..|entries| - 1], entries[|entries| - 1];
      LoadShowsLastQuotes(side, before);
      if last.etype == TypeOf(side) {
        AssignUpdates(side, Load(side, before), Rung(last.price, last.size));
      }
    }
  }

  // ---------------------------------------------------------------- loading a published snapshot

  /** Entries of the other side change nothing. */
  lemma {:induction false} LoadSkips(side: Side, before: seq<Entry>, other: seq<Entry>)
    requires forall i | 0 <= i < |other| :: other[i].etype != TypeOf(side)
    ensures Load(side, before + other) == Load(side, before)
  {
    if other == [] {
      assert before + other == before;
    } else {
      assert (before + other)[..|before + other| - 1] == before + other[..|other| - 1];
      LoadSkips(side, before, other[..|other| - 1]);
    }
  }

  /** Loading one more rung of a side. */
  lemma {:induction false} LoadsNext(side: Side, before: seq<Entry>, ladder: seq<Rung>, n: nat)
    requires 0 < n <= |ladder| && Climbs(side, ladder)
    requires Load(side, before + Entries(TypeOf(side), ladder)[..n - 1]) == ladder[..n - 1]
    ensures Load(side, before + Entries(TypeOf(side), ladder)[..n]) == ladder[..n]
  {
    var es := Entries(TypeOf(side), ladder);
    var all := before + es[..n];
    assert all[..|all| - 1] == before + es[..n - 1];
    assert all[|all| - 1] == es[n - 1];
    AssignAppends(side, ladder[..n - 1], ladder[n - 1]);
    assert ladder[..n - 1] + [ladder[n - 1]] == ladder[..n];
  }

  /** Loading the first n rungs of a side behind entries of the other side. */
  lemma {:induction false} LoadBuilds(side: Side, before: seq<Entry>, ladder: seq<Rung>, n: nat)
    requires n <= |ladder| && Climbs(side, ladder)
    requires forall i | 0 <= i < |before| :: before[i].etype != TypeOf(side)
    ensures Load(side, before + Entries(TypeOf(side), ladder)[..n]) == ladder[..n]
  {
    if n == 0 {
      LoadSkips(side, [], before);
      assert [] + before == before && before + Entries(TypeOf(side), ladder)[..0] == before;
    } else {
      LoadBuilds(side, before, ladder, n - 1);
      LoadsNext(side, before, ladder, n);
    }
  }

  lemma {:induction false} LoadsWhole(side: Side, before: seq<Entry>, ladder: seq<Rung>, entries: seq<Entry>)
    requires Climbs(side, ladder) && entries == Entries(TypeOf(side), ladder)
    requires forall i | 0 <= i < |before| :: before[i].etype != TypeOf(side)
    ensures Load(side, before + entries) == ladder
  {
    LoadBuilds(side, before, ladder, |ladder|);
    assert entries[..|ladder|] == entries && ladder[..|ladder|] == ladder;
  }

  /** What the exchange publishes is what the client shows: each client ladder is the ladder
      of that side of the book. */
  lemma {:induction false} SnapshotRoundTrip(e: State)
    requires Sorted(Buy, e.bids) && Sorted(Sell, e.asks)
    ensures Load(Buy, Snapshot(e)) == Ladder(e.bids)
    ensures Load(Sell, Snapshot(e)) == Ladder(e.asks)
  {
    var bids, asks := Entries(Bid, Ladder(e.bids)), Entries(Offer, Ladder(e.asks));
    LadderClimbs(Buy, e.bids);
    LadderClimbs(Sell, e.asks);
    LoadsWhole(Buy, [], Ladder(e.bids), bids);
    assert [] + bids == bids;
    LoadSkips(Buy, bids, asks);
    LoadsWhole(Sell, bids, Ladder(e.asks), asks);
  }

  // ---------------------------------------------------------------- the client's book

  function ViewOf(bids: seq<Rung>, asks: seq<Rung>, depth: nat): View {
    var b, a := Best(bids, depth), Best(asks, depth);
    if b != [] && a != [] then View(b, a, a[0].price - b[0].price, (a[0].price + b[0].price) / 2.0)
    else View(b, a, 0.0, 0.0)
  }

  class ClientBook {
    var bids: seq<Rung>
    var asks: seq<Rung>

    constructor ()
      ensures bids == asks == []
    {
      bids, asks := [], [];
    }

    method HandleSnapshot(entries: seq<Entry>)
      modifies this
      ensures bids == Load(Buy, entries) && asks == Load(Sell, entries)
    {
      bids, asks := [], [];
      var i := 0;
      while i < |entries|
        invariant i <= |entries|
        invariant bids == Load(Buy, entries[..i]) && asks == Load(Sell, entries[..i])
      {
        var entry := entries[i];
        assert entries[..i + 1][..i] == entries[..i];
        if entry.etype == Bid {
          bids := Assign(Buy, bids, Rung(entry.price, entry.size));
        } else if entry.etype == Offer {
          asks := Assign(Sell, asks, Rung(entry.price, entry.size));
        }
        i := i + 1;
      }
      assert entries[..i] == entries;
    }

    method GetUISnapshot(maxDepth: nat) returns (view: View)
      ensures view == ViewOf(bids, asks, maxDepth)
    {
      var b := TakeUpTo(bids, maxDepth);
      var a := TakeUpTo(asks, maxDepth);
      if b != [] && a != [] {
        view := View(b, a, a[0].price - b[0].price, (a[0].price + b[0].price) / 2.0);
      } else {
        view := View(b, a, 0.0, 0.0);
      }
    }
  }

  method TakeUpTo(ladder: seq<Rung>, maxDepth: nat) returns (taken: seq<Rung>)
    ensures taken == Best(ladder, maxDepth)
  {
    taken := [];
    var i := 0;
    while i < |ladder|
      invariant i <= |ladder| && i <= maxDepth && taken == ladder[..i]
    {
      if i >= maxDepth {
        break;
      }
      taken := taken + [ladder[i]];
      i := i + 1;
    }
  }

  // ---------------------------------------------------------------- what a client sees

  /** The view shows the best levels of this side of the book and nothing else: each with
      exactly the quantity resting at its price, in order, and every price it leaves out is
      worse than all it shows. */
  predicate ShowsBest(side: Side, shown: seq<Rung>, s: seq<OrderData>, depth: nat) {
    && |shown| <= depth && Climbs(side, shown) && Exact(shown, s)
    && forall x | x in s :: Has(shown, x.price)
                            || (|shown| == depth && forall r | r in shown :: Better(side, r.price, x.price))
  }

  lemma {:induction false} ShownOrBehind(side: Side, ladder: seq<Rung>, depth: nat, i: nat)
    requires Climbs(side, ladder) && i < |ladder|
    ensures var shown := Best(ladder, depth);
      Has(shown, ladder[i].price) || (|shown| == depth && forall r | r in shown :: Better(side, r.price, ladder[i].price))
  {
    var shown := Best(ladder, depth);
    if i < |shown| {
      assert shown[i] in shown;
    } else {
      forall r | r in shown ensures Better(side, r.price, ladder[i].price) {
        var j :| 0 <= j < |shown| && shown[j] == r;
        assert ladder[j] == r;
      }
    }
  }

  lemma {:induction false} BestCovers(side: Side, ladder: seq<Rung>, s: seq<OrderData>, depth: nat)
    requires Climbs(side, ladder) && Covers(ladder, s)
    ensures var shown := Best(ladder, depth);
      forall x | x in s :: Has(shown, x.price) || (|shown| == depth && forall r | r in shown :: Better(side, r.price, x.price))
  {
    var shown := Best(ladder, depth);
    forall x | x in s
      ensures Has(shown, x.price) || (|shown| == depth && forall r | r in shown :: Better(side, r.price, x.price))
    {
      var i :| 0 <= i < |ladder| && ladder[i].price == x.price;
      ShownOrBehind(side, ladder, depth, i);
    }
  }

  lemma {:induction false} BestShows(side: Side, s: seq<OrderData>, depth: nat)
    requires Sorted(side, s)
    ensures ShowsBest(side, Best(Ladder(s), depth), s, depth)
  {
    LadderIsExact(side, s);
    assert forall r | r in Best(Ladder(s), depth) :: r in Ladder(s);
    BestCovers(side, Ladder(s), s, depth);
  }

  /** After any run, a client that loads the published snapshot shows the best levels of the
      exchange's book, and a positive spread around the mid price whenever both sides are
      present. */
  lemma {:induction false} ClientSeesTheBook(cs: seq<Command>, depth: nat)
    requires FreshRun(cs)
    ensures var e := Run(cs);
      var view := ViewOf(Load(Buy, Snapshot(e)), Load(Sell, Snapshot(e)), depth);
      && ShowsBest(Buy, view.bids, e.bids, depth)
      && ShowsBest(Sell, view.asks, e.asks, depth)
      && (depth > 0 && e.bids != [] && e.asks != [] ==>
            view.bids != [] && view.asks != [] && view.spread > 0.0
            && view.bids[0].price < view.midPrice < view.asks[0].price)
  {
    var e := Run(cs);
    BookNeverCrossed(cs);
    SnapshotRoundTrip(e);
    BestShows(Buy, e.bids, depth);
    BestShows(Sell, e.asks, depth);
    LadderHead(e.bids);
    LadderHead(e.asks);
  }
}
