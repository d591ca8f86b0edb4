/** The client's reassembly of received bytes. Unlike the exchange it does not look at BodyLength:
    a message ends at the first delimiter behind the first "10=". */
module ClientReader {
  import opened Text
  import opened Framing
  import opened Outbound
  import opened ReadLoop

  function Begins(version: string): (s: string)
    ensures |s| == |version| + 3
  {
    version + [SOH] + "9="
  }

  const FIXT_BEGIN_STRING := "8=FIXT.1.1"

  /** The first place where either kind of message begins, or the end of the buffer. */
  function MessageStart(buffer: string): (pos: nat)
    ensures pos <= |buffer|
  {
    var fix, fixt := Find(buffer, Begins(BEGIN_STRING), 0), Find(buffer, Begins(FIXT_BEGIN_STRING), 0);
    if fix <= fixt then fix else fixt
  }

  /** Up to the delimiter behind the first "10=" from a position on. */
  function CutAt(buffer: string, pos: nat): (r: FrameResult)
    requires pos <= |buffer|
    ensures r.Complete? ==> pos < r.consumed <= |buffer| && r.frame == buffer[pos..r.consumed]
  {
    var check := Find(buffer, "10=", pos);
    if check == |buffer| then NeedMoreData
    else
      var end := IndexOf(buffer, SOH, check);
      if end == |buffer| then NeedMoreData else Complete(end + 1, buffer[pos..end + 1])
  }

  function ClientExtract(buffer: string): (r: FrameResult)
    ensures r.Complete? ==> 0 < r.consumed <= |buffer|
  {
    var pos := MessageStart(buffer);
    if pos == |buffer| then NeedMoreData else CutAt(buffer, pos)
  }

  // ---------------------------------------------------------------- the loop

  class FixClientReader {
    var readBuffer: string
    /** The messages handed on so far, oldest first. */
    var handled: seq<Event>

    constructor ()
      ensures readBuffer == "" && handled == []
    {
      readBuffer, handled := "", [];
    }

    /** One read: always ends, and does exactly what Drain says. */
    method OnRead(data: string)
      modifies this
      ensures Drained(handled, readBuffer) == Prepend(old(handled), Drain(ClientExtract, old(readBuffer) + data))
    {
      readBuffer := readBuffer + data;
      ghost var whole := Prepend(handled, Drain(ClientExtract, readBuffer));
      var next := NextMessage(readBuffer);
      while next.Complete?
        invariant Reading(whole, handled, readBuffer, next)
        decreases |readBuffer|
      {
        TakesNext(whole, handled, readBuffer, next);
        handled := handled + [Handle(next.frame)];
        readBuffer := readBuffer[next.consumed..];
        next := NextMessage(readBuffer);
      }
      Waits(whole, handled, readBuffer, next);
    }
  }

  /** What is handed on so far and what the buffer still gives make up the whole. */
  ghost predicate Reading(whole: Drained, handled: seq<Event>, buffer: string, next: FrameResult) {
    next == ClientExtract(buffer) && Takes(ClientExtract) && whole == Prepend(handled, Drain(ClientExtract, buffer))
  }

  lemma {:induction false} TakesNext(whole: Drained, handled: seq<Event>, buffer: string, next: FrameResult)
    requires Reading(whole, handled, buffer, next) && next.Complete?
    ensures 0 < next.consumed <= |buffer|
    ensures var rest := buffer[next.consumed..]; Reading(whole, handled + [Handle(next.frame)], rest, ClientExtract(rest))
  {
    PrependTwice(handled, [Handle(next.frame)], Drain(ClientExtract, buffer[next.consumed..]));
  }

  lemma {:induction false} Waits(whole: Drained, handled: seq<Event>, buffer: string, next: FrameResult)
    requires Reading(whole, handled, buffer, next) && !next.Complete?
    ensures whole == Drained(handled, buffer)
  {
    assert handled + [] == handled;
  }

  method NextMessage(buffer: string) returns (r: FrameResult)
    ensures r == ClientExtract(buffer)
  {
    var pos := MessageStart(buffer);
    if pos == |buffer| {
      return NeedMoreData;
    }
    var check := Find(buffer, "10=", pos);
    if check == |buffer| {
      return NeedMoreData;
    }
    var end := IndexOf(buffer, SOH, check);
    if end == |buffer| {
      return NeedMoreData;
    }
    r := Complete(end + 1, buffer[pos..end + 1]);
  }

  // ---------------------------------------------------------------- chunking

  lemma {:induction false} FindLonger(s: string, t: string, pat: string, from: nat)
    requires pat != "" && from <= |s| && Find(s, pat, from) < |s|
    ensures Find(s + t, pat, from) == Find(s, pat, from)
  {
    var i := Find(s, pat, from);
    forall k | from <= k <= i ensures OccursAt(s + t, pat, k) <==> OccursAt(s, pat, k) {
      assert (s + t)[k..k + |pat|] == s[k..k + |pat|];
    }
  }

  /** A pattern that is not found before an end it would fit in front of, is not found there
      when the text grows. */
  lemma {:induction false} NotEarlier(s: string, t: string, pat: string, before: nat)
    requires pat != "" && before + |pat| <= |s| + 1 && before <= Find(s, pat, 0)
    ensures before <= Find(s + t, pat, 0)
  {
    forall k | 0 <= k < before ensures !OccursAt(s + t, pat, k) {
      assert (s + t)[k..k + |pat|] == s[k..k + |pat|];
      assert !OccursAt(s, pat, k);
    }
  }

  lemma {:induction false} StartLonger(s: string, t: string)
    requires MessageStart(s) < |s|
    ensures MessageStart(s + t) == MessageStart(s)
  {
    var a, b := Begins(BEGIN_STRING), Begins(FIXT_BEGIN_STRING);
    var fix, fixt := Find(s, a, 0), Find(s, b, 0);
    assert |a| == 12 && |b| == 13;
    if fix <= fixt {
      FindLonger(s, t, a, 0);
      NotEarlier(s, t, b, fix);
    } else {
      FindLonger(s, t, b, 0);
      NotEarlier(s, t, a, fixt);
    }
  }

  lemma {:induction false} CutLonger(s: string, t: string, pos: nat)
    requires pos <= |s| && CutAt(s, pos).Complete?
    ensures CutAt(s + t, pos) == CutAt(s, pos)
  {
    FindLonger(s, t, "10=", pos);
    var check := Find(s, "10=", pos);
    IndexOfLonger(s, t, SOH, check);
    var end := IndexOf(s, SOH, check);
    assert (s + t)[pos..end + 1] == s[pos..end + 1];
  }

  /** A message once found stays the same when more bytes arrive. */
  lemma {:induction false} ClientVerdictsAreStable(s: string, t: string)
    requires !ClientExtract(s).NeedMoreData?
    ensures ClientExtract(s + t) == ClientExtract(s)
  {
    StartLonger(s, t);
    CutLonger(s, t, MessageStart(s));
  }

  lemma {:induction false} ClientIsStable()
    ensures Takes(ClientExtract) && Stable(ClientExtract)
  {
    forall s, t | !ClientExtract(s).NeedMoreData? ensures ClientExtract(s + t) == ClientExtract(s) {
      ClientVerdictsAreStable(s, t);
    }
  }

  ghost predicate NeverRefuses(framer: Framer) {
    forall b :: !framer(b).Malformed?
  }

  lemma {:induction false} DrainsWithoutRefusal(framer: Framer, buffer: string)
    requires Takes(framer) && NeverRefuses(framer)
    ensures NoRefusal(Drain(framer, buffer))
    decreases |buffer|
  {
    if buffer != "" && framer(buffer).Complete? {
      DrainsWithoutRefusal(framer, buffer[framer(buffer).consumed..]);
    }
  }

  /** For every stream of bytes whatever, however it is cut into reads: the client hands on the
      same messages and keeps the same rest. */
  lemma {:induction false} ClientChunkingInvariance(chunks: seq<string>)
    ensures Takes(ClientExtract) && Feed(ClientExtract, chunks) == Drain(ClientExtract, Joined(chunks))
  {
    ClientIsStable();
    assert NeverRefuses(ClientExtract);
    DrainsWithoutRefusal(ClientExtract, Joined(chunks));
    ChunkingInvariance(ClientExtract, chunks);
  }

  // ---------------------------------------------------------------- what the exchange built

  lemma {:induction false} HeadBegins(payload: string, rest: string)
    ensures OccursAt(Wrap(payload) + rest, Begins(BEGIN_STRING), 0)
    ensures MessageStart(Wrap(payload) + rest) == 0
  {
    var s, digits := Wrap(payload) + rest, Decimal(|payload|);
    BeforeShape(digits, payload);
    assert s[..|Head(payload)|] == Head(payload);
    assert s[0..12] == Head(payload)[..12] == Begins(BEGIN_STRING);
  }

  /** The checksum field stands at the end of the frame and holds the frame's last delimiter. */
  lemma {:induction false} CheckStands(head: string, check: string, rest: string)
    requires SOH !in check
    ensures var s := head + "10=" + check + [SOH] + rest;
      && OccursAt(s, "10=", |head|) && IndexOf(s, SOH, |head|) == |head| + 3 + |check|
  {
    var s, n := head + "10=" + check + [SOH] + rest, |head|;
    assert s[n..n + 3] == "10=";
    assert forall k | n + 3 <= k < n + 3 + |check| :: s[k] == check[k - n - 3] && check[k - n - 3] in check;
    assert s[n] != SOH && s[n + 1] != SOH && s[n + 2] != SOH && s[n + 3 + |check|] == SOH;
  }

  lemma {:induction false} CutsFrame(head: string, check: string, rest: string)
    requires SOH !in check && head != "" && head[|head| - 1] == SOH
    ensures var s := head + "10=" + check + [SOH] + rest; var n := |head| + 4 + |check|;
      if Find(s, "10=", 0) == |head| then CutAt(s, 0) == Complete(n, s[..n])
      else CutAt(s, 0).Complete? && CutAt(s, 0).consumed <= |head|
  {
    var s := head + "10=" + check + [SOH] + rest;
    CheckStands(head, check, rest);
    assert Find(s, "10=", 0) <= |head|;
    if Find(s, "10=", 0) < |head| {
      assert s[|head| - 1] == SOH;
    }
  }

  lemma {:induction false} CheckTextIsPlain(head: string)
    ensures SOH !in CheckText(head)
  {
    PlainPadding(3, Numeral(Remainder(SignedSum(head), 256)));
    var r := Remainder(SignedSum(head), 256);
    assert SOH !in Decimal(if r < 0 then -r else r) by {
      var d := Decimal(if r < 0 then -r else r);
      assert forall i | 0 <= i < |d| :: IsDigit(d[i]);
    }
  }

  lemma {:induction false} PlainPadding(width: nat, s: string)
    ensures SOH !in s ==> SOH !in PadLeft(width, s)
    decreases width - |s|
  {
    if |s| < width {
      PlainPadding(width, "0" + s);
    }
  }

  /** A message built by the exchange reaches the client whole if and only if "10=" stands
      nowhere in it before the checksum field. Otherwise it is cut short there. */
  lemma {:induction false} BuiltMessagesAreCut(payload: string, rest: string)
    requires Bytes(payload) && payload != "" && payload[|payload| - 1] == SOH
    ensures var m := Wrap(payload);
      if Find(m, "10=", 0) == |Head(payload)| then ClientExtract(m + rest) == Complete(|m|, m)
      else ClientExtract(m + rest).Complete? && ClientExtract(m + rest).consumed < |m|
  {
    var m, head, check := Wrap(payload), Head(payload), CheckText(Head(payload));
    HeadIsBytes(payload);
    HeadBegins(payload, rest);
    CheckTextIsPlain(head);
    BeforeShape(Decimal(|payload|), payload);
    assert head[|head| - 1] == payload[|payload| - 1];
    CutsFrame(head, check, rest);
    CheckStands(head, check, "");
    assert m == head + "10=" + check + [SOH] + "";
    assert Find(m, "10=", 0) <= |head|;
    FindLonger(m, rest, "10=", 0);
    assert m + rest == head + "10=" + check + [SOH] + rest;
    assert (m + rest)[..|m|] == m;
  }

  lemma {:induction false} TextInHead(head: string, payload: string, m: string, n: nat, k: nat)
    requires OccursAt(payload, "10=", k) && n + |payload| == |head| <= |m| && head[n..] == payload && m[..|head|] == head
    ensures OccursAt(m, "10=", n + k)
  {
    OccursInTail(head, "10=", n, k);
    assert m[n + k..n + k + 3] == head[n + k..n + k + 3];
  }

  /** So every payload that holds "10=" anywhere is cut. */
  lemma {:induction false} CutAtCheckText(payload: string, k: nat, rest: string)
    requires Bytes(payload) && payload != "" && payload[|payload| - 1] == SOH && OccursAt(payload, "10=", k)
    ensures ClientExtract(Wrap(payload) + rest).Complete? && ClientExtract(Wrap(payload) + rest).consumed < |Wrap(payload)|
  {
    var n := |Head(payload)| - |payload|;
    BeforeShape(Decimal(|payload|), payload);
    TextInHead(Head(payload), payload, Wrap(payload), n, k);
    BuiltMessagesAreCut(payload, rest);
  }
}
