/** The session's read loop: it collects arriving chunks in a buffer, hands complete frames on
    and searches for the next frame start after a malformed one. */
module ReadLoop {
  import opened Sequences
  import opened Text
  import opened Framing
  import Fields

  /** What the loop does with the front of the buffer. */
  datatype Event = Handle(frame: string) | Refuse(fault: Fault)

  datatype Drained = Drained(events: seq<Event>, rest: string)

  const NEXT_BEGIN := "8=FIX."

  /** Behind a malformed frame: from the next frame start on, or nothing. */
  function Resync(buffer: string): (rest: string)
    requires buffer != ""
    ensures |rest| < |buffer|
  {
    var next := Find(buffer, NEXT_BEGIN, 1);
    if next == |buffer| then "" else buffer[next..]
  }

  type Framer = string -> FrameResult

  /** A complete frame is taken from the front of the buffer, and none from an empty one. */
  ghost predicate Takes(framer: Framer) {
    framer("").NeedMoreData? && forall b :: framer(b).Complete? ==> 0 < framer(b).consumed <= |b|
  }

  /** A verdict is final: more bytes do not change it. */
  ghost predicate Stable(framer: Framer) {
    forall a, b :: !framer(a).NeedMoreData? ==> framer(a + b) == framer(a)
  }

  /** Everything the loop can do with this buffer. */
  ghost function Drain(framer: Framer, buffer: string): (d: Drained)
    requires Takes(framer)
    decreases |buffer|
  {
    if buffer == "" || framer(buffer).NeedMoreData? then Drained([], buffer)
    else if framer(buffer).Malformed? then
      Prepend([Refuse(framer(buffer).fault)], Drain(framer, Resync(buffer)))
    else
      Prepend([Handle(framer(buffer).frame)], Drain(framer, buffer[framer(buffer).consumed..]))
  }

  function Prepend(events: seq<Event>, d: Drained): Drained {
    Drained(events + d.events, d.rest)
  }

  /** What the session does about an event: a frame goes to the handler under the first
      character of its type, or is rejected for having none. */
  datatype Deed = HandleAs(frame: string, msgType: char) | RejectUntyped | RejectMalformed(fault: Fault)

  /** None for a frame with a tag that is not a number: splitting it throws. */
  function DeedOf(event: Event): Option<Deed> {
    match event
    case Refuse(fault) => Some(RejectMalformed(fault))
    case Handle(frame) =>
      match Fields.Split(frame)
      case None => None
      case Some(found) =>
        if 35 in found && found[35] != "" then Some(HandleAs(frame, found[35][0])) else Some(RejectUntyped)
  }

  /** What is done about events in turn; an exception ends it. */
  function Deeds(events: seq<Event>): (ds: seq<Deed>)
    ensures |ds| <= |events|
  {
    if events == [] || DeedOf(events[0]).None? then [] else [DeedOf(events[0]).value] + Deeds(events[1..])
  }

  class FixSession {
    var readBuffer: string
    /** What has been done so far, oldest first. */
    var deeds: seq<Deed>

    constructor ()
      ensures readBuffer == "" && deeds == []
    {
      readBuffer, deeds := "", [];
    }

    /** What is done about a frame, unless splitting it throws. */
    method Dispatch(frame: string) returns (thrown: bool)
      modifies this`deeds
      ensures thrown <==> DeedOf(Handle(frame)).None?
      ensures deeds == if thrown then old(deeds) else old(deeds) + [DeedOf(Handle(frame)).value]
    {
      var ok, found := Fields.SplitToMap(frame);
      if !ok {
        return true;
      }
      thrown := false;
      if 35 in found && found[35] != "" {
        deeds := deeds + [HandleAs(frame, found[35][0])];
      } else {
        deeds := deeds + [RejectUntyped];
      }
    }

    /** Refuses what the buffer starts with and goes on at the next frame start. */
    method RejectFront(fault: Fault, ghost whole: Drained, ghost k: nat, ghost before: seq<Deed>)
      requires readBuffer != "" && Extract(readBuffer) == Malformed(fault)
      requires Progress(whole, k, Drain(Extract, readBuffer), before, deeds)
      modifies this
      ensures Progress(whole, k + 1, Drain(Extract, readBuffer), before, deeds) && |readBuffer| < old(|readBuffer|)
    {
      NextDeed(whole, k, Refuse(fault), Drain(Extract, Resync(readBuffer)), before, deeds);
      deeds := deeds + [RejectMalformed(fault)];
      var nextBegin := Find(readBuffer, NEXT_BEGIN, 1);
      if nextBegin == |readBuffer| {
        readBuffer := "";
      } else {
        readBuffer := readBuffer[nextBegin..];
      }
    }

    /** Dispatches the frame the buffer starts with, and takes it out unless that throws. */
    method TakeFront(frame: string, consumed: nat, ghost whole: Drained, ghost k: nat, ghost before: seq<Deed>) returns (thrown: bool)
      requires readBuffer != "" && Extract(readBuffer) == Complete(consumed, frame)
      requires Progress(whole, k, Drain(Extract, readBuffer), before, deeds)
      modifies this
      ensures if thrown then Ended(whole, Drain(Extract, readBuffer), before, deeds, true)
              else Progress(whole, k + 1, Drain(Extract, readBuffer), before, deeds) && |readBuffer| < old(|readBuffer|)
    {
      ghost var rest := FrontTaken(readBuffer, consumed, frame);
      NextDeed(whole, k, Handle(frame), Drain(Extract, rest), before, deeds);
      thrown := Dispatch(frame);
      if !thrown {
        readBuffer := readBuffer[consumed..];
        assert readBuffer == rest;
      }
    }

    /** One read: always ends, does in turn what Drain says about the buffer, and keeps the
        rest. Behind an exception nothing is done, and nothing is lost from the buffer. */
    method OnRead(data: string) returns (thrown: bool)
      modifies this
      ensures var d := Drain(Extract, old(readBuffer) + data); var n := |Deeds(d.events)|;
        && deeds == old(deeds) + Deeds(d.events)
        && (thrown <==> n < |d.events|)
        && Drain(Extract, readBuffer) == Drained(d.events[n..], d.rest)
        && (!thrown ==> readBuffer == d.rest)
    {
      readBuffer := readBuffer + data;
      ghost var k, whole, before := 0, Drain(Extract, readBuffer), deeds;
      while readBuffer != ""
        invariant Progress(whole, k, Drain(Extract, readBuffer), before, deeds)
        decreases |readBuffer|
      {
        var frame := ExtractNextFrame(readBuffer);
        if frame.NeedMoreData? {
          break;
        }
        if frame.Malformed? {
          RejectFront(frame.fault, whole, k, before);
        } else {
          thrown := TakeFront(frame.frame, frame.consumed, whole, k, before);
          if thrown {
            return;
          }
        }
        k := k + 1;
      }
      EndsWaiting(whole, k, readBuffer, before, deeds);
      thrown := false;
    }
  }

  /** The read is over: everything is done that comes before an exception, and the rest is
      still in the buffer. */
  ghost predicate Ended(whole: Drained, left: Drained, before: seq<Deed>, deeds: seq<Deed>, thrown: bool) {
    var n := |Deeds(whole.events)|;
    && deeds == before + Deeds(whole.events) && (thrown <==> n < |whole.events|)
    && left == Drained(whole.events[n..], whole.rest)
  }

  lemma {:induction false} EndsWaiting(whole: Drained, k: nat, buffer: string, before: seq<Deed>, deeds: seq<Deed>)
    requires buffer == "" || Extract(buffer).NeedMoreData?
    requires Progress(whole, k, Drain(Extract, buffer), before, deeds)
    ensures Ended(whole, Drain(Extract, buffer), before, deeds, false) && buffer == whole.rest
  {
    assert Drain(Extract, buffer) == Drained([], buffer) && Deeds([]) == [];
  }

  lemma {:induction false} FrontTaken(buffer: string, consumed: nat, frame: string) returns (rest: string)
    requires buffer != "" && Extract(buffer) == Complete(consumed, frame)
    ensures consumed <= |buffer| && rest == buffer[consumed..] && |rest| < |buffer|
    ensures Drain(Extract, buffer) == Prepend([Handle(frame)], Drain(Extract, rest))
  {
    rest := buffer[consumed..];
  }

  /** k events of the whole are dealt with, the others are still to come. */
  ghost predicate Progress(whole: Drained, k: nat, left: Drained, before: seq<Deed>, deeds: seq<Deed>) {
    && k <= |whole.events| && left == Drained(whole.events[k..], whole.rest)
    && |deeds| == |before| + k && deeds + Deeds(left.events) == before + Deeds(whole.events)
  }

  lemma {:induction false} NextDeed(whole: Drained, k: nat, event: Event, left: Drained, before: seq<Deed>, deeds: seq<Deed>)
    requires Progress(whole, k, Prepend([event], left), before, deeds)
    ensures match DeedOf(event)
      case Some(deed) => Progress(whole, k + 1, left, before, deeds + [deed])
      case None => Ended(whole, Prepend([event], left), before, deeds, true)
  {
    var events := whole.events[k..];
    assert events[0] == event && events[1..] == left.events && whole.events[k + 1..] == events[1..];
    if DeedOf(event).Some? {
      Associate(deeds, [DeedOf(event).value], Deeds(left.events));
    }
  }

  // ---------------------------------------------------------------- chunking

  /** Reading a stream chunk by chunk. */
  ghost function Feed(framer: Framer, chunks: seq<string>): Drained
    requires Takes(framer)
  {
    if chunks == [] then Drained([], "")
    else
      var before := Feed(framer, chunks[..|chunks| - 1]);
      Prepend(before.events, Drain(framer, before.rest + chunks[|chunks| - 1]))
  }

  function Joined(chunks: seq<string>): string {
    if chunks == [] then "" else Joined(chunks[..|chunks| - 1]) + chunks[|chunks| - 1]
  }

  predicate NoRefusal(d: Drained) {
    forall e | e in d.events :: e.Handle?
  }

  lemma {:induction false} PrependTwice(a: seq<Event>, b: seq<Event>, d: Drained)
    ensures Prepend(a, Prepend(b, d)) == Prepend(a + b, d)
    ensures NoRefusal(Prepend(a, d)) <==> NoRefusal(Drained(a, d.rest)) && NoRefusal(d)
  {
    assert a + (b + d.events) == a + b + d.events;
  }

  /** A complete frame at the front comes off the same way whatever has arrived behind it. */
  lemma {:induction false} TakesFront(framer: Framer, a: string, b: string)
    requires Takes(framer) && Stable(framer) && a != "" && framer(a).Complete?
    ensures var n, h := framer(a).consumed, [Handle(framer(a).frame)];
      && Drain(framer, a) == Prepend(h, Drain(framer, a[n..]))
      && Drain(framer, a + b) == Prepend(h, Drain(framer, a[n..] + b))
      && (NoRefusal(Drain(framer, a)) <==> NoRefusal(Drain(framer, a[n..])))
      && (NoRefusal(Drain(framer, a + b)) <==> NoRefusal(Drain(framer, a[n..] + b)))
  {
    var n, h := framer(a).consumed, [Handle(framer(a).frame)];
    assert framer(a + b) == framer(a);
    assert (a + b)[n..] == a[n..] + b;
    PrependTwice(h, [], Drain(framer, a[n..]));
    PrependTwice(h, [], Drain(framer, a[n..] + b));
  }

  lemma {:induction false} RefusesFront(framer: Framer, a: string, b: string)
    requires Takes(framer) && Stable(framer) && a != "" && framer(a).Malformed?
    ensures !NoRefusal(Drain(framer, a + b))
  {
    assert framer(a + b) == framer(a);
    PrependTwice([Refuse(framer(a).fault)], [], Drain(framer, Resync(a + b)));
    assert Refuse(framer(a).fault) in Drain(framer, a + b).events;
  }

  /** Draining part of a stream first makes no difference as long as nothing in that part is
      refused. */
  lemma {:induction false} DrainInParts(framer: Framer, a: string, b: string)
    requires Takes(framer) && Stable(framer) && NoRefusal(Drain(framer, a))
    ensures Drain(framer, a + b) == Prepend(Drain(framer, a).events, Drain(framer, Drain(framer, a).rest + b))
    decreases |a|
  {
    if a == "" {
      assert a + b == b;
    } else if framer(a).Malformed? {
      assert a + "" == a;
      RefusesFront(framer, a, "");
    } else if framer(a).Complete? {
      var n, h := framer(a).consumed, [Handle(framer(a).frame)];
      var d := Drain(framer, a[n..]);
      TakesFront(framer, a, b);
      DrainInParts(framer, a[n..], b);
      PrependTwice(h, d.events, Drain(framer, d.rest + b));
    }
  }

  /** A refusal shows in the longer stream too. */
  lemma {:induction false} RefusalStays(framer: Framer, a: string, b: string)
    requires Takes(framer) && Stable(framer) && NoRefusal(Drain(framer, a + b))
    ensures NoRefusal(Drain(framer, a))
    decreases |a|
  {
    if a != "" && framer(a).Malformed? {
      RefusesFront(framer, a, b);
    } else if a != "" && framer(a).Complete? {
      TakesFront(framer, a, b);
      RefusalStays(framer, a[framer(a).consumed..], b);
    }
  }

  /** Chunking invariance: whenever nothing in the stream is refused, how it is cut into
      reads makes no difference to what is handed on or to what stays in the buffer. */
  lemma {:induction false} ChunkingInvariance(framer: Framer, chunks: seq<string>)
    requires Takes(framer) && Stable(framer) && NoRefusal(Drain(framer, Joined(chunks)))
    ensures Feed(framer, chunks) == Drain(framer, Joined(chunks))
  {
    if chunks != [] {
      var before, last := Joined(chunks[..|chunks| - 1]), chunks[|chunks| - 1];
      RefusalStays(framer, before, last);
      ChunkingInvariance(framer, chunks[..|chunks| - 1]);
      DrainInParts(framer, before, last);
    }
  }

  /** The FIX framer is such a framer. */
  lemma {:induction false} ExtractIsStable()
    ensures Takes(Extract) && Stable(Extract)
  {
    forall a, b | !Extract(a).NeedMoreData? ensures Extract(a + b) == Extract(a) {
      VerdictsAreStable(a, b);
    }
  }

  // ---------------------------------------------------------------- streams of frames

  ghost predicate Frames(fs: seq<string>) {
    forall i | 0 <= i < |fs| :: WellFormed(fs[i])
  }

  /** The beginning of a frame that has not arrived completely. */
  ghost predicate Partial(tail: string) {
    tail == "" || exists frame :: WellFormed(frame) && |tail| < |frame| && tail == frame[..|tail|]
  }

  function Stream(fs: seq<string>, tail: string): string {
    if fs == [] then tail else fs[0] + Stream(fs[1..], tail)
  }

  function Handled(fs: seq<string>): seq<Event> {
    if fs == [] then [] else [Handle(fs[0])] + Handled(fs[1..])
  }

  lemma {:induction false} HandledHasNoRefusal(fs: seq<string>, rest: string)
    ensures NoRefusal(Drained(Handled(fs), rest))
  {
    if fs != [] {
      HandledHasNoRefusal(fs[1..], rest);
    }
  }

  /** A stream of well-formed frames is taken apart exactly at its frame boundaries. */
  lemma {:induction false} DrainsFrames(fs: seq<string>, tail: string)
    requires Frames(fs) && Partial(tail)
    ensures Takes(Extract) && Drain(Extract, Stream(fs, tail)) == Drained(Handled(fs), tail)
  {
    if fs == [] {
      if tail != "" {
        var frame :| WellFormed(frame) && |tail| < |frame| && tail == frame[..|tail|];
        PrefixesWait(frame, |tail|);
      }
    } else {
      var stream, more := Stream(fs, tail), Stream(fs[1..], tail);
      assert stream[..|fs[0]|] == fs[0] && stream[|fs[0]|..] == more;
      ExtractIsGrammar(stream, |fs[0]|);
      DrainsFrames(fs[1..], tail);
    }
  }

  /** For any sequence of well-formed frames followed by a strict prefix of another, cut into
      chunks in any way: the session hands on exactly those frames, in order, refuses nothing
      and keeps exactly the unfinished frame. */
  lemma {:induction false} FramesSurviveChunking(fs: seq<string>, tail: string, chunks: seq<string>)
    requires Frames(fs) && Partial(tail) && Joined(chunks) == Stream(fs, tail)
    ensures Takes(Extract) && Feed(Extract, chunks) == Drained(Handled(fs), tail)
  {
    DrainsFrames(fs, tail);
    HandledHasNoRefusal(fs, tail);
    ExtractIsStable();
    ChunkingInvariance(Extract, chunks);
  }

  // ---------------------------------------------------------------- refused input

  lemma {:induction false} WellFormedStart(frame: string)
    requires WellFormed(frame)
    ensures |frame| >= 20 && frame[..9] == BEGIN_STRING && frame[..6] == NEXT_BEGIN && frame[2] == 'F'
  {
    var digits, body, check :| ValidParts(digits, body, check) && frame == Framed(digits, body, check);
    FramedIsLaid(digits, body, check, "");
    assert frame + "" == frame;
    assert frame[..6] == frame[..9][..6] && frame[2] == frame[..9][2];
  }

  lemma {:induction false} NotABegin(buffer: string)
    requires |buffer| >= 2 && buffer[0] != '8'
    ensures Extract(buffer) == Malformed(NoBeginString)
  {
    assert buffer[..2][0] != '8';
  }

  lemma {:induction false} TwoReads(framer: Framer, first: string, second: string) returns (chunks: seq<string>)
    requires Takes(framer)
    ensures chunks == [first, second] && Joined(chunks) == first + second
    ensures var d := Drain(framer, first); Feed(framer, chunks) == Prepend(d.events, Drain(framer, d.rest + second))
  {
    chunks := [first, second];
    assert chunks[..1] == [first] && [first][..0] == [];
    assert "" + first == first;
    assert Joined([first]) == first && Feed(framer, [first]) == Drain(framer, first);
  }

  lemma {:induction false} RefusedTwice(framer: Framer, first: string, second: string, e: Event) returns (chunks: seq<string>)
    requires Takes(framer) && Drain(framer, first) == Drained([e], "")
    requires var d := Drain(framer, second); d.events != [] && d.events[0] == e
    ensures Joined(chunks) == first + second && [e, e] <= Feed(framer, chunks).events
  {
    chunks := TwoReads(framer, first, second);
    assert "" + second == second;
  }

  lemma {:induction false} CutInBegin(frame: string) returns (first: string, second: string)
    requires WellFormed(frame)
    ensures first + second == "xx" + frame
    ensures |first| == 4 && first[0] == 'x' && |second| >= 2 && second[0] == 'F'
  {
    WellFormedStart(frame);
    first, second := "xx" + frame[..2], frame[2..];
  }

  /** Behind refused input the cut can matter. Any frame with two stray bytes before it is
      found again when it arrives in one read, and lost when the first read ends inside its
      BeginString. */
  lemma {:induction false} ResyncDependsOnChunking(frame: string) returns (chunks: seq<string>)
    requires WellFormed(frame)
    ensures Joined(chunks) == "xx" + frame && Takes(Extract)
    ensures Drain(Extract, "xx" + frame).events == [Refuse(NoBeginString), Handle(frame)]
    ensures [Refuse(NoBeginString), Refuse(NoBeginString)] <= Feed(Extract, chunks).events
  {
    var first, second := CutInBegin(frame);
    FoundAgain(frame);
    LostIn(first, second);
    chunks := RefusedTwice(Extract, first, second, Refuse(NoBeginString));
  }

  /** Refused bytes in front of frames, with no frame start among them, are skipped in one go,
      and every frame behind them is handed on. */
  lemma {:induction false} JunkIsSkipped(junk: string, fs: seq<string>, tail: string, fault: Fault)
    requires Frames(fs) && fs != [] && Partial(tail) && junk != ""
    requires Extract(junk + Stream(fs, tail)) == Malformed(fault)
    requires forall i | 1 <= i < |junk| :: !OccursAt(junk + Stream(fs, tail), NEXT_BEGIN, i)
    ensures Takes(Extract)
    ensures Drain(Extract, junk + Stream(fs, tail)) == Drained([Refuse(fault)] + Handled(fs), tail)
  {
    var stream := StreamBegins(fs, tail);
    ResyncTo(junk, stream);
    DrainsFrames(fs, tail);
    ExtractIsStable();
    DrainRefuses(Extract, junk + stream, fault);
  }

  lemma {:induction false} StreamBegins(fs: seq<string>, tail: string) returns (stream: string)
    requires Frames(fs) && fs != []
    ensures stream == Stream(fs, tail) && |stream| >= 6 && stream[..6] == NEXT_BEGIN
  {
    stream := Stream(fs, tail);
    WellFormedStart(fs[0]);
    assert stream[..6] == fs[0][..6];
  }

  lemma {:induction false} ResyncTo(junk: string, stream: string)
    requires junk != "" && |stream| >= 6 && stream[..6] == NEXT_BEGIN
    requires forall i | 1 <= i < |junk| :: !OccursAt(junk + stream, NEXT_BEGIN, i)
    ensures Resync(junk + stream) == stream
  {
    var whole := junk + stream;
    assert whole[|junk|..|junk| + 6] == stream[..6];
    assert OccursAt(whole, NEXT_BEGIN, |junk|);
    assert whole[|junk|..] == stream;
  }

  lemma {:induction false} DrainRefuses(framer: Framer, buffer: string, fault: Fault)
    requires Takes(framer) && buffer != "" && framer(buffer) == Malformed(fault)
    ensures Drain(framer, buffer) == Prepend([Refuse(fault)], Drain(framer, Resync(buffer)))
  {
  }

  lemma {:induction false} FoundAgain(frame: string)
    requires WellFormed(frame)
    ensures Takes(Extract) && Drain(Extract, "xx" + frame).events == [Refuse(NoBeginString), Handle(frame)]
  {
    var fs := [frame];
    assert fs[1..] == [] && frame + "" == frame;
    assert Stream(fs, "") == frame + Stream(fs[1..], "") == frame;
    assert Handled(fs) == [Handle(frame)] + Handled(fs[1..]) == [Handle(frame)];
    var junk := "xx";
    var whole := junk + frame;
    assert whole[0] == 'x' && whole[1] == 'x' && |whole| >= 2;
    NotABegin(whole);
    NoStartAtOne(whole, junk);
    JunkIsSkipped(junk, fs, "", NoBeginString);
  }

  lemma {:induction false} NoStartAtOne(whole: string, junk: string)
    requires |whole| >= 2 && whole[1] == 'x' && |junk| == 2
    ensures forall i | 1 <= i < |junk| :: !OccursAt(whole, NEXT_BEGIN, i)
  {
    if OccursAt(whole, NEXT_BEGIN, 1) {
      OccursChars(whole, NEXT_BEGIN, 1);
      assert false;
    }
  }

  lemma {:induction false} LostIn(first: string, second: string)
    requires |first| == 4 && first[0] == 'x' && |second| >= 2 && second[0] == 'F'
    ensures Takes(Extract) && Drain(Extract, first) == Drained([Refuse(NoBeginString)], "")
    ensures Drain(Extract, second).events != [] && Drain(Extract, second).events[0] == Refuse(NoBeginString)
  {
    ExtractIsStable();
    RefusedAtOnce(first);
    RefusedAtOnce(second);
    assert Resync(first) == "";
    assert [Refuse(NoBeginString)] + [] == [Refuse(NoBeginString)];
  }

  lemma {:induction false} RefusedAtOnce(buffer: string)
    requires Takes(Extract) && |buffer| >= 2 && buffer[0] != '8'
    ensures Drain(Extract, buffer) == Prepend([Refuse(NoBeginString)], Drain(Extract, Resync(buffer)))
  {
    NotABegin(buffer);
    DrainRefuses(Extract, buffer, NoBeginString);
  }
}
