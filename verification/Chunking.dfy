/** When the way a stream is cut into reads makes a difference to the session: the exact
    condition, also for streams of which something is refused. */
module Chunking {
  import opened Sequences
  import opened Text
  import opened Framing
  import opened ReadLoop

  // ---------------------------------------------------------------- the condition

  /** The length of the shortest refused prefix of w that reaches to `from`. */
  function RefusedFrom(framer: Framer, w: string, from: nat): (n: nat)
    requires from <= |w| && Takes(framer) && framer(w).Malformed?
    ensures from <= n <= |w| && n > 0 && framer(w[..n]).Malformed?
    ensures forall k | from <= k < n :: !framer(w[..k]).Malformed?
    decreases |w| - from
  {
    if from == |w| then
      assert w[..from] == w;
      from
    else if framer(w[..from]).Malformed? then from else RefusedFrom(framer, w, from + 1)
  }

  /** Is the outcome the same however t is cut, when it follows a, which arrives in one read?
      At every refusal, either nothing follows the bytes p that are refused first, or the next
      frame start already stands in p. */
  ghost predicate CutProof(framer: Framer, a: string, t: string)
    requires Takes(framer)
    decreases |a| + |t|
  {
    var w := a + t;
    match framer(w)
    case NeedMoreData => true
    case Complete(n, _) => if n <= |a| then CutProof(framer, a[n..], t) else CutProof(framer, "", w[n..])
    case Malformed(_) =>
      var q := RefusedFrom(framer, w, |a|);
      q == |w| || (Resync(w[..q]) != "" && CutProof(framer, Resync(w[..q]), w[q..]))
  }

  // ---------------------------------------------------------------- reads, oldest first

  /** The loop with a in its buffer, then one read per chunk. */
  ghost function Reads(framer: Framer, a: string, chunks: seq<string>): Drained
    requires Takes(framer)
    decreases |chunks|
  {
    var d := Drain(framer, a);
    if chunks == [] then d else Prepend(d.events, Reads(framer, d.rest + chunks[0], chunks[1..]))
  }

  lemma {:induction false} ReadsLast(framer: Framer, a: string, chunks: seq<string>, last: string)
    requires Takes(framer)
    ensures var before := Reads(framer, a, chunks);
      Reads(framer, a, chunks + [last]) == Prepend(before.events, Drain(framer, before.rest + last))
    decreases |chunks|
  {
    var d := Drain(framer, a);
    var all := chunks + [last];
    if chunks == [] {
      assert all[1..] == [] && all[0] == last;
    } else {
      var first := d.rest + chunks[0];
      assert all[0] == chunks[0] && all[1..] == chunks[1..] + [last];
      ReadsLast(framer, first, chunks[1..], last);
      var before := Reads(framer, first, chunks[1..]);
      PrependTwice(d.events, before.events, Drain(framer, before.rest + last));
    }
  }

  lemma {:induction false} FeedReads(framer: Framer, first: string, chunks: seq<string>)
    requires Takes(framer)
    ensures Feed(framer, [first] + chunks) == Reads(framer, first, chunks)
    decreases |chunks|
  {
    var all := [first] + chunks;
    if chunks == [] {
      assert all[..0] == [] && all[0] == first && "" + first == first;
      assert [] + Drain(framer, first).events == Drain(framer, first).events;
    } else {
      var last := chunks[|chunks| - 1];
      assert all[..|all| - 1] == [first] + chunks[..|chunks| - 1];
      assert chunks == chunks[..|chunks| - 1] + [last];
      FeedReads(framer, first, chunks[..|chunks| - 1]);
      ReadsLast(framer, first, chunks[..|chunks| - 1], last);
    }
  }

  lemma {:induction false} JoinedFront(first: string, chunks: seq<string>)
    ensures Joined([first] + chunks) == first + Joined(chunks)
    decreases |chunks|
  {
    var all := [first] + chunks;
    if chunks == [] {
      assert all[..0] == [] && "" + first == first + "";
    } else {
      var last := chunks[|chunks| - 1];
      assert all[..|all| - 1] == [first] + chunks[..|chunks| - 1];
      JoinedFront(first, chunks[..|chunks| - 1]);
      assert first + Joined(chunks[..|chunks| - 1]) + last == first + (Joined(chunks[..|chunks| - 1]) + last);
    }
  }

  // ---------------------------------------------------------------- one verdict at a time

  /** A refused buffer of which more arrives: the verdict is the same, and so is the next frame
      start if there was one. */
  lemma {:induction false} RefusedLonger(framer: Framer, p: string, more: string)
    requires Stable(framer) && p != "" && framer(p).Malformed?
    ensures framer(p + more) == framer(p)
    ensures Resync(p) != "" ==> Resync(p + more) == Resync(p) + more
  {
    var i := Find(p, NEXT_BEGIN, 1);
    if i < |p| {
      forall k | 1 <= k <= i ensures OccursAt(p + more, NEXT_BEGIN, k) <==> OccursAt(p, NEXT_BEGIN, k) {
        assert (p + more)[k..k + 6] == p[k..k + 6];
      }
      assert Find(p + more, NEXT_BEGIN, 1) == i;
      assert (p + more)[i..] == p[i..] + more;
    }
  }

  lemma {:induction false} ReadsTaken(framer: Framer, a: string, chunks: seq<string>)
    requires Takes(framer) && framer(a).Complete?
    ensures Reads(framer, a, chunks) == Prepend([Handle(framer(a).frame)], Reads(framer, a[framer(a).consumed..], chunks))
  {
    var h, rest := [Handle(framer(a).frame)], a[framer(a).consumed..];
    var d := Drain(framer, rest);
    assert Drain(framer, a) == Prepend(h, d);
    if chunks != [] {
      PrependTwice(h, d.events, Reads(framer, d.rest + chunks[0], chunks[1..]));
    }
  }

  lemma {:induction false} ReadsRefused(framer: Framer, a: string, chunks: seq<string>)
    requires Takes(framer) && a != "" && framer(a).Malformed?
    ensures Reads(framer, a, chunks) == Prepend([Refuse(framer(a).fault)], Reads(framer, Resync(a), chunks))
  {
    var h, rest := [Refuse(framer(a).fault)], Resync(a);
    var d := Drain(framer, rest);
    assert Drain(framer, a) == Prepend(h, d);
    if chunks != [] {
      PrependTwice(h, d.events, Reads(framer, d.rest + chunks[0], chunks[1..]));
    }
  }

  lemma {:induction false} ReadsWaits(framer: Framer, a: string, chunks: seq<string>)
    requires Takes(framer) && framer(a).NeedMoreData? && chunks != []
    ensures Reads(framer, a, chunks) == Reads(framer, a + chunks[0], chunks[1..])
  {
    assert Drain(framer, a) == Drained([], a);
    var d := Reads(framer, a + chunks[0], chunks[1..]);
    assert [] + d.events == d.events;
  }

  // ---------------------------------------------------------------- pieces of text

  lemma {:induction false} Appended(a: string, b: string, n: nat)
    requires n <= |a|
    ensures (a + b)[..n] == a[..n] && (a + b)[n..] == a[n..] + b
  {
  }

  /** A text up to two positions, and behind them. */
  lemma {:induction false} Pieces(w: string, q: nat, c: nat)
    requires q <= c <= |w|
    ensures w == w[..q] + w[q..] && w[..c] == w[..q] + w[q..c] && w[q..] == w[q..c] + w[c..]
    ensures w[..c] + "" == w[..c] && "" + w[c..] == w[c..]
  {
  }

  // ---------------------------------------------------------------- the condition is enough

  /** If more arrives together, the outcome depends even less on the rest. */
  lemma {:induction false} MoreTogether(framer: Framer, a: string, c: string, t: string)
    requires Takes(framer) && Stable(framer) && CutProof(framer, a, c + t)
    ensures CutProof(framer, a + c, t)
    decreases |a| + |c| + |t|
  {
    var w := a + (c + t);
    Associate(a, c, t);
    match framer(w)
    case NeedMoreData =>
    case Complete(n, _) =>
      if n <= |a| {
        Appended(a, c, n);
        MoreTogether(framer, a[n..], c, t);
      } else if n <= |a + c| {
        var more := (a + c)[n..];
        Appended(a + c, t, n);
        Appended("", more, 0);
        MoreTogether(framer, "", more, t);
      }
    case Malformed(_) => RefusedTogether(framer, a, c, t);
  }

  lemma {:induction false} RefusedAfter(framer: Framer, w: string, from: nat, to: nat)
    requires Takes(framer) && Stable(framer) && from <= to <= |w| && framer(w).Malformed?
    ensures var q := RefusedFrom(framer, w, from); RefusedFrom(framer, w, to) == if q < to then to else q
  {
    var q, r := RefusedFrom(framer, w, from), RefusedFrom(framer, w, to);
    if q < to {
      assert w[..to] == w[..q] + w[q..to];
      assert framer(w[..to]) == framer(w[..q]);
    }
  }

  lemma {:induction false} RefusedTogether(framer: Framer, a: string, c: string, t: string)
    requires Takes(framer) && Stable(framer) && CutProof(framer, a, c + t) && framer(a + c + t).Malformed?
    ensures CutProof(framer, a + c, t)
    decreases |a| + |c| + |t|, 0
  {
    var w := a + c + t;
    Associate(a, c, t);
    var q, r := RefusedFrom(framer, w, |a|), RefusedFrom(framer, w, |a + c|);
    var p, more := w[..q], w[q..r];
    RefusedAfter(framer, w, |a|, |a + c|);
    if r < |w| {
      Pieces(w, q, r);
      RefusedLonger(framer, p, more);
      MoreTogether(framer, Resync(p), more, w[r..]);
    }
  }

  /** With nothing to follow there is nothing to cut. */
  lemma {:induction false} NothingToCut(framer: Framer, a: string)
    requires Takes(framer) && Stable(framer)
    ensures CutProof(framer, a, "")
    decreases |a|
  {
    assert a + "" == a;
    if framer(a).Complete? {
      NothingToCut(framer, a[framer(a).consumed..]);
    }
  }

  lemma {:induction false} CutProofLonger(framer: Framer, a: string, chunks: seq<string>) returns (rest: seq<string>)
    requires Takes(framer) && Stable(framer) && chunks != [] && CutProof(framer, a, Joined(chunks))
    ensures rest == chunks[1..] && CutProof(framer, a + chunks[0], Joined(rest))
    ensures a + Joined(chunks) == a + chunks[0] + Joined(rest)
  {
    rest := chunks[1..];
    assert chunks == [chunks[0]] + rest;
    JoinedFront(chunks[0], rest);
    Associate(a, chunks[0], Joined(rest));
    MoreTogether(framer, a, chunks[0], Joined(rest));
  }

  /** Where the condition holds, every way of cutting leads to the outcome of one read. */
  lemma {:induction false} CutProofReads(framer: Framer, a: string, chunks: seq<string>)
    requires Takes(framer) && Stable(framer) && CutProof(framer, a, Joined(chunks))
    ensures Reads(framer, a, chunks) == Drain(framer, a + Joined(chunks))
    decreases |a| + |Joined(chunks)|, |chunks|
  {
    var t := Joined(chunks);
    if chunks == [] {
      assert a + "" == a;
    } else if framer(a).NeedMoreData? {
      var rest := CutProofLonger(framer, a, chunks);
      ReadsWaits(framer, a, chunks);
      CutProofReads(framer, a + chunks[0], rest);
    } else if framer(a).Complete? {
      var n := framer(a).consumed;
      assert framer(a + t) == framer(a);
      ReadsTaken(framer, a, chunks);
      CutProofReads(framer, a[n..], chunks);
      TakesFront(framer, a, t);
    } else {
      CutProofRefused(framer, a, chunks);
    }
  }

  lemma {:induction false} CutProofRefused(framer: Framer, a: string, chunks: seq<string>)
    requires Takes(framer) && Stable(framer) && CutProof(framer, a, Joined(chunks)) && framer(a).Malformed?
    ensures Reads(framer, a, chunks) == Drain(framer, a + Joined(chunks))
    decreases |a| + |Joined(chunks)|, |chunks|, 0
  {
    var t := Joined(chunks);
    var w := a + t;
    assert w[..|a|] == a && w[|a|..] == t;
    RefusedLonger(framer, a, t);
    assert RefusedFrom(framer, w, |a|) == |a|;
    ReadsRefused(framer, a, chunks);
    if t == "" {
      assert w == a && Resync(a) + t == Resync(a);
      NothingToCut(framer, Resync(a));
    }
    CutProofReads(framer, Resync(a), chunks);
    DrainRefuses(framer, w, framer(a).fault);
  }

  // ---------------------------------------------------------------- and nothing less is

  /** The complete frame at the front of b is also at the front of c. */
  ghost predicate BeginsLike(framer: Framer, b: string, c: string) {
    framer(b).Complete? && framer(b).consumed <= |b| && framer(b).consumed <= |c|
    && c[..framer(b).consumed] == b[..framer(b).consumed]
  }

  /** What matters about the session's framer: verdicts are final, a frame is
      recognised once it is complete and begins with a frame start, text that does not begin like one is refused as soon as it shows, and a single
      byte is not judged. */
  ghost predicate ReadsFrames(framer: Framer) {
    && Takes(framer) && Stable(framer)
    && (forall b, c :: BeginsLike(framer, b, c) ==> framer(c) == framer(b))
    && (forall b :: framer(b).Complete? ==> OccursAt(b, NEXT_BEGIN, 0))
    && (forall b :: OccursAt(b, NEXT_BEGIN, 0) ==> framer(b) != Malformed(NoBeginString))
    && (forall b | |b| >= 2 && b[0] != '8' :: framer(b) == Malformed(NoBeginString))
    && (forall b | |b| < 2 :: framer(b).NeedMoreData?)
  }

  /** The first event tells a refusal from any other verdict. */
  lemma {:induction false} VerdictShows(framer: Framer, u: string, v: string)
    requires Takes(framer) && framer(u).Malformed? && framer(v) != framer(u)
    ensures Drain(framer, u) != Drain(framer, v)
  {
    DrainRefuses(framer, u, framer(u).fault);
    assert Drain(framer, u).events[0] == Refuse(framer(u).fault);
    if framer(v).Malformed? {
      DrainRefuses(framer, v, framer(v).fault);
      assert Drain(framer, v).events[0] == Refuse(framer(v).fault);
    }
  }

  /** A frame start without its first bytes is not read like the frame start itself. */
  lemma {:induction false} BeheadedDiffers(framer: Framer, v: string, k: nat)
    requires ReadsFrames(framer) && OccursAt(v, NEXT_BEGIN, 0) && 1 <= k <= 5
    ensures Drain(framer, v[k..]) != Drain(framer, v)
  {
    var u := v[k..];
    OccursChars(v, NEXT_BEGIN, 0);
    assert u[0] == v[k] == NEXT_BEGIN[k];
    if |u| >= 2 {
      assert framer(u) == Malformed(NoBeginString);
      VerdictShows(framer, u, v);
    } else {
      assert Drain(framer, u) == Drained([], u);
      WaitsForAll(framer, v);
    }
  }

  lemma {:induction false} WaitsForAll(framer: Framer, v: string)
    requires Takes(framer)
    ensures Drain(framer, v).events == [] ==> Drain(framer, v).rest == v
  {
  }

  lemma {:induction false} RestIsShort(framer: Framer, buffer: string)
    requires Takes(framer)
    ensures |Drain(framer, buffer).rest| <= |buffer|
    decreases |buffer|
  {
    if buffer == "" || framer(buffer).NeedMoreData? {
    } else if framer(buffer).Malformed? {
      RestIsShort(framer, Resync(buffer));
    } else {
      RestIsShort(framer, buffer[framer(buffer).consumed..]);
    }
  }

  /** Nor is a text like the first frame start behind it. */
  lemma {:induction false} LeftoverDiffers(framer: Framer, u: string)
    requires ReadsFrames(framer) && u != "" && !OccursAt(u, NEXT_BEGIN, 0)
    ensures Drain(framer, u) != Drain(framer, Resync(u))
  {
    RestIsShort(framer, Resync(u));
    if framer(u).Malformed? {
      DrainRefuses(framer, u, framer(u).fault);
    }
  }

  /** Which frame start a shorter or later text begins with. */
  lemma {:induction false} ResyncWithin(w: string, c: nat)
    requires 0 < c < |w|
    ensures var i := Find(w, NEXT_BEGIN, 1);
      && (c < i + 6 ==> Resync(w[..c]) == "")
      && (c < i ==> Resync(w[c..]) == Resync(w) && !OccursAt(w[c..], NEXT_BEGIN, 0))
      && (i + 6 <= c ==> Resync(w[..c]) != "")
  {
    var i := Find(w, NEXT_BEGIN, 1);
    forall k | 0 <= k < c ensures OccursAt(w[..c], NEXT_BEGIN, k) <==> k + 6 <= c && OccursAt(w, NEXT_BEGIN, k) {
      if k + 6 <= c {
        assert w[..c][k..k + 6] == w[k..k + 6];
      }
    }
    forall k | 0 <= k < |w| - c ensures OccursAt(w[c..], NEXT_BEGIN, k) <==> OccursAt(w, NEXT_BEGIN, c + k) {
      OccursInTail(w, NEXT_BEGIN, c, k);
    }
    if c < i {
      var j := Find(w[c..], NEXT_BEGIN, 1);
      OccursInTail(w, NEXT_BEGIN, c, i - c);
      OccursInTail(w, NEXT_BEGIN, c, j);
      assert j == i - c;
      assert i < |w| ==> w[c..][i - c..] == w[i..];
    }
  }

  lemma {:induction false} TailOfTail(w: string, i: nat, k: nat)
    requires i + k <= |w|
    ensures w[i..][k..] == w[i + k..]
  {
  }

  /** A cut inside the next frame start. */
  lemma {:induction false} CutInStart(framer: Framer, w: string, i: nat, c: nat)
    requires ReadsFrames(framer) && OccursAt(w, NEXT_BEGIN, i) && i < c < i + 6 && c < |w|
    ensures Drain(framer, w[c..]) != Drain(framer, w[i..])
  {
    TailOfTail(w, i, c - i);
    OccursInTail(w, NEXT_BEGIN, i, 0);
    BeheadedDiffers(framer, w[i..], c - i);
  }

  /** A cut before it. */
  lemma {:induction false} CutBeforeStart(framer: Framer, w: string, c: nat)
    requires ReadsFrames(framer) && 0 < c < |w| && c < Find(w, NEXT_BEGIN, 1)
    ensures Drain(framer, w[c..]) != Drain(framer, Resync(w))
  {
    ResyncWithin(w, c);
    LeftoverDiffers(framer, w[c..]);
  }

  /** When the first refused bytes hold no frame start and something follows them, there is a
      cut behind which the outcome is another one. */
  lemma {:induction false} BadCut(framer: Framer, w: string, q: nat) returns (c: nat)
    requires ReadsFrames(framer) && 0 < q < |w| && Resync(w[..q]) == ""
    ensures q <= c < |w| && Resync(w[..c]) == "" && Drain(framer, w[c..]) != Drain(framer, Resync(w))
  {
    var i := Find(w, NEXT_BEGIN, 1);
    ResyncWithin(w, q);
    if q < i {
      c := q;
      CutBeforeStart(framer, w, c);
    } else {
      c := if i == q then q + 1 else q;
      ResyncWithin(w, c);
      CutInStart(framer, w, i, c);
    }
  }

  lemma {:induction false} PrependDiffers(h: seq<Event>, d: Drained, e: Drained)
    ensures Prepend(h, d) == Prepend(h, e) ==> d == e
  {
    if Prepend(h, d) == Prepend(h, e) {
      assert d.events == (h + d.events)[|h|..] == (h + e.events)[|h|..] == e.events;
    }
  }


  /** Where what follows a frame can differ, so can the frame and what follows it. */
  lemma {:induction false} DiffersBehindFrame(framer: Framer, w: string, n: nat, b: string, chunks: seq<string>)
    requires ReadsFrames(framer) && framer(w).Complete? && n == framer(w).consumed
    requires n <= |b| && b[..n] == w[..n]
    requires Reads(framer, b[n..], chunks) != Drain(framer, w[n..])
    ensures Reads(framer, b, chunks) != Drain(framer, w)
  {
    assert BeginsLike(framer, w, b);
    ReadsTaken(framer, b, chunks);
    PrependDiffers([Handle(framer(w).frame)], Reads(framer, b[n..], chunks), Drain(framer, w[n..]));
  }

  lemma {:induction false} DiffersBehindRefusal(framer: Framer, w: string, b: string, chunks: seq<string>)
    requires Takes(framer) && framer(w).Malformed? && framer(b) == framer(w)
    requires Reads(framer, Resync(b), chunks) != Drain(framer, Resync(w))
    ensures Reads(framer, b, chunks) != Drain(framer, w)
  {
    ReadsRefused(framer, b, chunks);
    DrainRefuses(framer, w, framer(w).fault);
    PrependDiffers([Refuse(framer(w).fault)], Reads(framer, Resync(b), chunks), Drain(framer, Resync(w)));
  }

  lemma {:induction false} OneRead(framer: Framer, chunk: string)
    requires Takes(framer)
    ensures Joined([chunk]) == chunk && Reads(framer, "", [chunk]) == Drain(framer, chunk)
  {
    JoinedFront(chunk, []);
    ReadsWaits(framer, "", [chunk]);
    assert "" + chunk == chunk == chunk + "";
  }

  /** What arrives with a when the first cut stands behind position n, and a piece more. */
  lemma {:induction false} UpTo(a: string, t: string, n: nat, piece: string) returns (first: string)
    requires |a| <= n <= |a + t|
    ensures a + first == (a + t)[..n] + piece && (a + first)[..n] == (a + t)[..n] && (a + first)[n..] == piece
    ensures forall rest | piece + rest == (a + t)[n..] :: first + rest == t
  {
    var front := (a + t)[|a|..n];
    first := front + piece;
    assert a + front == (a + t)[..n];
    assert front + (a + t)[n..] == t;
    forall rest | piece + rest == (a + t)[n..] ensures first + rest == t {
      assert first + rest == front + (piece + rest);
    }
  }

  /** A cut that shows: the first piece arrives together with a, the other pieces one by one. */
  ghost predicate Shows(framer: Framer, a: string, t: string, first: string, chunks: seq<string>)
    requires Takes(framer)
  {
    t == first + Joined(chunks) && Reads(framer, a + first, chunks) != Drain(framer, a + t)
  }

  lemma {:induction false} ShowsBehindFrame(framer: Framer, a: string, t: string, n: nat, first: string, chunks: seq<string>)
    requires ReadsFrames(framer) && framer(a + t).Complete? && n == framer(a + t).consumed <= |a|
    requires Shows(framer, a[n..], t, first, chunks)
    ensures Shows(framer, a, t, first, chunks)
  {
    Appended(a, first, n);
    Appended(a, t, n);
    DiffersBehindFrame(framer, a + t, n, a + first, chunks);
  }

  lemma {:induction false} ShowsBehindLongFrame(framer: Framer, a: string, t: string, n: nat, piece: string, chunks: seq<string>)
    returns (first: string)
    requires ReadsFrames(framer) && framer(a + t).Complete? && |a| <= n == framer(a + t).consumed
    requires Shows(framer, "", (a + t)[n..], piece, chunks)
    ensures Shows(framer, a, t, first, chunks)
  {
    first := UpTo(a, t, n, piece);
    Appended("", piece, 0);
    Appended("", (a + t)[n..], 0);
    DiffersBehindFrame(framer, a + t, n, a + first, chunks);
  }

  lemma {:induction false} ShowsBehindRefusal(framer: Framer, a: string, t: string, q: nat, piece: string, chunks: seq<string>)
    returns (first: string)
    requires Takes(framer) && Stable(framer) && |a| <= q <= |a + t| && framer((a + t)[..q]).Malformed?
    requires Resync((a + t)[..q]) != "" && Shows(framer, Resync((a + t)[..q]), (a + t)[q..], piece, chunks)
    ensures Shows(framer, a, t, first, chunks)
  {
    var w, p := a + t, (a + t)[..q];
    first := UpTo(a, t, q, piece);
    Pieces(w, q, q);
    RefusedLonger(framer, p, piece);
    RefusedLonger(framer, p, w[q..]);
    DiffersBehindRefusal(framer, w, a + first, chunks);
  }

  lemma {:induction false} ShowsAtBadCut(framer: Framer, a: string, t: string, q: nat) returns (first: string, chunks: seq<string>)
    requires ReadsFrames(framer) && |a| <= q < |a + t| && framer((a + t)[..q]).Malformed? && Resync((a + t)[..q]) == ""
    ensures Shows(framer, a, t, first, chunks)
  {
    var w, p := a + t, (a + t)[..q];
    var c := BadCut(framer, w, q);
    first := UpTo(a, t, c, "");
    chunks := [w[c..]];
    OneRead(framer, w[c..]);
    Pieces(w, q, c);
    RefusedLonger(framer, p, w[q..]);
    RefusedLonger(framer, p, w[q..c]);
    DiffersBehindRefusal(framer, w, a + first, chunks);
  }

  /** Where the condition fails, some way of cutting leads to another outcome. */
  lemma {:induction false} NotCutProof(framer: Framer, a: string, t: string) returns (first: string, chunks: seq<string>)
    requires ReadsFrames(framer) && !CutProof(framer, a, t)
    ensures Shows(framer, a, t, first, chunks)
    decreases |a| + |t|
  {
    var w := a + t;
    if framer(w).Complete? {
      var n := framer(w).consumed;
      if n <= |a| {
        first, chunks := NotCutProof(framer, a[n..], t);
        ShowsBehindFrame(framer, a, t, n, first, chunks);
      } else {
        var piece;
        piece, chunks := NotCutProof(framer, "", w[n..]);
        first := ShowsBehindLongFrame(framer, a, t, n, piece, chunks);
      }
    } else {
      var q := RefusedFrom(framer, w, |a|);
      if Resync(w[..q]) == "" {
        first, chunks := ShowsAtBadCut(framer, a, t, q);
      } else {
        var piece;
        piece, chunks := NotCutProof(framer, Resync(w[..q]), w[q..]);
        first := ShowsBehindRefusal(framer, a, t, q, piece, chunks);
      }
    }
  }

  // ---------------------------------------------------------------- the session

  lemma {:induction false} FramesBegin(b: string)
    requires Extract(b).Complete?
    ensures OccursAt(b, NEXT_BEGIN, 0) && WellFormed(b[..Extract(b).consumed])
  {
    var n := Extract(b).consumed;
    CompleteIsFramed(b);
    WellFormedStart(b[..n]);
    assert b[0..6] == b[..n][..6];
  }

  lemma {:induction false} FramesAreKnown(b: string, c: string)
    requires BeginsLike(Extract, b, c)
    ensures Extract(c) == Extract(b)
  {
    FramesBegin(b);
    ExtractIsGrammar(c, Extract(b).consumed);
  }

  lemma {:induction false} BeginIsKnown(b: string)
    requires OccursAt(b, NEXT_BEGIN, 0)
    ensures Extract(b) != Malformed(NoBeginString)
  {
    assert b[..2] == b[0..6][..2];
  }

  lemma {:induction false} ExtractReadsFrames()
    ensures ReadsFrames(Extract)
  {
    ExtractIsStable();
    forall b, c | BeginsLike(Extract, b, c) ensures Extract(c) == Extract(b) {
      FramesAreKnown(b, c);
    }
    forall b | Extract(b).Complete? ensures OccursAt(b, NEXT_BEGIN, 0) {
      FramesBegin(b);
    }
    forall b | OccursAt(b, NEXT_BEGIN, 0) ensures Extract(b) != Malformed(NoBeginString) {
      BeginIsKnown(b);
    }
    forall b | |b| >= 2 && b[0] != '8' ensures Extract(b) == Malformed(NoBeginString) {
      NotABegin(b);
    }
  }

  lemma {:induction false} CutProofFeeds(framer: Framer, chunks: seq<string>)
    requires Takes(framer) && Stable(framer) && CutProof(framer, "", Joined(chunks))
    ensures Feed(framer, chunks) == Drain(framer, Joined(chunks))
  {
    if chunks != [] {
      var first, rest := chunks[0], chunks[1..];
      assert chunks == [first] + rest;
      Appended("", first, 0);
      FeedReads(framer, first, rest);
      JoinedFront(first, rest);
      MoreTogether(framer, "", first, Joined(rest));
      CutProofReads(framer, first, rest);
    }
  }

  lemma {:induction false} BadCutFeeds(framer: Framer, s: string) returns (chunks: seq<string>)
    requires ReadsFrames(framer) && !CutProof(framer, "", s)
    ensures Joined(chunks) == s && Feed(framer, chunks) != Drain(framer, s)
  {
    var first, rest := NotCutProof(framer, "", s);
    chunks := [first] + rest;
    Appended("", first, 0);
    Appended("", s, 0);
    FeedReads(framer, first, rest);
    JoinedFront(first, rest);
  }

  /** For every stream: however it is cut into reads, the session hands on and refuses the same
      and keeps the same rest, if and only if at every refusal either nothing follows the first
      refused bytes, or the next frame start has already arrived with them. */
  lemma {:induction false} CutsMakeNoDifference(s: string)
    ensures Takes(Extract)
    ensures (forall chunks | Joined(chunks) == s :: Feed(Extract, chunks) == Drain(Extract, s)) <==> CutProof(Extract, "", s)
  {
    ExtractReadsFrames();
    if CutProof(Extract, "", s) {
      forall chunks | Joined(chunks) == s ensures Feed(Extract, chunks) == Drain(Extract, s) {
        CutProofFeeds(Extract, chunks);
      }
    } else {
      var chunks := BadCutFeeds(Extract, s);
    }
  }
}
