/** FIX frames: extracting the next one from a receive buffer.

    Text is a sequence of bytes, written as characters below 256. Offsets are mathematical
    integers once the BodyLength itself has passed the overflow guard. */
module Framing {
  import opened Text

  const BEGIN_STRING := "8=FIX.4.4"

  datatype Fault =
    | NoBeginString
    | WrongBeginString
    | NoBodyLength
    | BadBodyLength
    | HugeBodyLength
    | NoChecksumField
    | BadChecksumField
    | WrongChecksum

  datatype FrameResult =
    | NeedMoreData
    | Malformed(fault: Fault)
    | Complete(consumed: nat, frame: string)

  // ---------------------------------------------------------------- numbers and checksums

  function ByteSum(s: string): nat {
    if s == "" then 0 else ByteSum(s[..|s| - 1]) + s[|s| - 1] as int
  }

  /** A size_t read from a whole numeral: digits only, and in range. */
  function ParseUnsigned(value: string): Option<nat> {
    if value != "" && AllDigits(value) && Dec(value) <= SIZE_MAX then Some(Dec(value)) else None
  }

  lemma {:induction false} WrapStep(a: nat, c: nat)
    ensures (a % WORD + c) % WORD == (a + c) % WORD
    ensures (a % WORD) % 256 == a % 256
  {
    var q, r := a / WORD, a % WORD;
    assert a == q * WORD + r;
    assert (q * 0x100_0000 * 256 + r) % 256 == r % 256;
  }

  /** The running sum is kept in a 32-bit word; that never shows in the result. */
  method Checksum(message: string) returns (sum: nat)
    ensures sum == ByteSum(message) % 256
  {
    sum := 0;
    var i := 0;
    while i < |message|
      invariant i <= |message| && sum == ByteSum(message[..i]) % WORD
    {
      assert message[..i + 1][..i] == message[..i];
      WrapStep(ByteSum(message[..i]), message[i] as int);
      sum := (sum + message[i] as int) % WORD;
      i := i + 1;
    }
    assert message[..i] == message;
    WrapStep(ByteSum(message), 0);
    sum := sum % 256;
  }

  method ReadUnsigned(value: string) returns (ok: bool, result: nat)
    ensures ok <==> ParseUnsigned(value).Some?
    ensures ok ==> result == ParseUnsigned(value).value
  {
    ok, result := false, 0;
    if value == "" {
      return;
    }
    var i := 0;
    while i < |value|
      invariant i <= |value| && AllDigits(value[..i])
    {
      if !IsDigit(value[i]) {
        return;
      }
      assert value[..i + 1] == value[..i] + [value[i]];
      i := i + 1;
    }
    assert value[..i] == value;
    ok := Dec(value) <= SIZE_MAX;
    if ok {
      result := Dec(value);
    }
  }

  // ---------------------------------------------------------------- the framer

  /** What follows once BodyLength is known. */
  function ExtractBody(buffer: string, bodyStart: nat, bodyLength: nat): (r: FrameResult)
    requires bodyStart <= |buffer|
    ensures r.Complete? ==> bodyStart < r.consumed <= |buffer| && r.frame == buffer[..r.consumed]
  {
    var end := bodyStart + bodyLength;
    if end > SIZE_MAX then Malformed(HugeBodyLength)
    else if |buffer| < end + 3 then NeedMoreData
    else if Substr(buffer, end, 3) != "10=" then Malformed(NoChecksumField)
    else if |buffer| < end + 7 then NeedMoreData
    else
      var expected := ParseUnsigned(Substr(buffer, end + 3, 3));
      if expected.None? || buffer[end + 6] != SOH then Malformed(BadChecksumField)
      else if ByteSum(buffer[..end]) % 256 != expected.value then Malformed(WrongChecksum)
      else Complete(end + 7, buffer[..end + 7])
  }

  function Extract(buffer: string): (r: FrameResult)
    ensures r.Complete? ==> 0 < r.consumed <= |buffer| && r.frame == buffer[..r.consumed]
  {
    if |buffer| < 2 then NeedMoreData
    else if buffer[..2] != "8=" then Malformed(NoBeginString)
    else
      var beginEnd := IndexOf(buffer, SOH, 0);
      if beginEnd == |buffer| then NeedMoreData
      else if buffer[..beginEnd] != BEGIN_STRING then Malformed(WrongBeginString)
      else if |buffer| < beginEnd + 3 then NeedMoreData
      else if Substr(buffer, beginEnd + 1, 2) != "9=" then Malformed(NoBodyLength)
      else
        var lengthEnd := IndexOf(buffer, SOH, beginEnd + 3);
        if lengthEnd == |buffer| then NeedMoreData
        else
          var length := ParseUnsigned(buffer[beginEnd + 3..lengthEnd]);
          if length.None? then Malformed(BadBodyLength)
          else ExtractBody(buffer, lengthEnd + 1, length.value)
  }

  method ExtractNextFrame(buffer: string) returns (result: FrameResult)
    ensures result == Extract(buffer)
  {
    if buffer == "" || |buffer| < 2 {
      return NeedMoreData;
    }
    if buffer[..2] != "8=" {
      return Malformed(NoBeginString);
    }
    var beginEnd := IndexOf(buffer, SOH, 0);
    if beginEnd == |buffer| {
      return NeedMoreData;
    }
    if buffer[..beginEnd] != BEGIN_STRING {
      return Malformed(WrongBeginString);
    }
    var lengthStart := beginEnd + 1;
    if |buffer| < lengthStart + 2 {
      return NeedMoreData;
    }
    if Substr(buffer, lengthStart, 2) != "9=" {
      return Malformed(NoBodyLength);
    }
    var lengthEnd := IndexOf(buffer, SOH, lengthStart + 2);
    if lengthEnd == |buffer| {
      return NeedMoreData;
    }
    var ok, bodyLength := ReadUnsigned(buffer[lengthStart + 2..lengthEnd]);
    if !ok {
      return Malformed(BadBodyLength);
    }
    result := ExtractFrom(buffer, lengthEnd + 1, bodyLength);
  }

  /** The part behind the header. */
  method ExtractFrom(buffer: string, bodyStart: nat, bodyLength: nat) returns (result: FrameResult)
    requires bodyStart <= |buffer|
    ensures result == ExtractBody(buffer, bodyStart, bodyLength)
  {
    if bodyLength > SIZE_MAX - bodyStart {
      return Malformed(HugeBodyLength);
    }
    var checksumStart := bodyStart + bodyLength;
    if |buffer| < checksumStart + 3 {
      return NeedMoreData;
    }
    if Substr(buffer, checksumStart, 3) != "10=" {
      return Malformed(NoChecksumField);
    }
    if |buffer| < checksumStart + 7 {
      return NeedMoreData;
    }
    var ok, expected := ReadUnsigned(Substr(buffer, checksumStart + 3, 3));
    if !ok || buffer[checksumStart + 6] != SOH {
      return Malformed(BadChecksumField);
    }
    var actual := Checksum(buffer[..checksumStart]);
    if actual != expected {
      return Malformed(WrongChecksum);
    }
    result := Complete(checksumStart + 7, buffer[..checksumStart + 7]);
  }

  // ---------------------------------------------------------------- the grammar of a frame

  /** Everything in front of the checksum field. */
  function Before(digits: string, body: string): string {
    BEGIN_STRING + [SOH] + "9=" + digits + [SOH] + body
  }

  function Framed(digits: string, body: string, check: string): string {
    Before(digits, body) + "10=" + check + [SOH]
  }

  /** BodyLength counts the body, and the checksum is three digits giving the byte sum of all
      that precedes it. */
  predicate ValidParts(digits: string, body: string, check: string) {
    && digits != "" && AllDigits(digits) && Dec(digits) == |body|
    && |check| == 3 && AllDigits(check) && Dec(check) == ByteSum(Before(digits, body)) % 256
    && |Before(digits, body)| <= SIZE_MAX
  }

  ghost predicate WellFormed(frame: string) {
    exists digits, body, check :: ValidParts(digits, body, check) && frame == Framed(digits, body, check)
  }

  lemma {:induction false} BeforeShape(digits: string, body: string)
    ensures var b := Before(digits, body); var n := |digits|;
      && |b| == 13 + n + |body|
      && b[..9] == BEGIN_STRING && b[9] == SOH && b[10..12] == "9=" && b[12..12 + n] == digits && b[12 + n] == SOH
  {
  }

  /** Where the pieces of a frame stand in a buffer that starts with one. */
  ghost predicate Laid(buffer: string, digits: string, body: string, check: string) {
    var n := |digits|;
    var end := 13 + n + |body|;
    && end + 7 <= |buffer|
    && buffer[..9] == BEGIN_STRING && buffer[9] == SOH && buffer[10..12] == "9="
    && buffer[12..12 + n] == digits && buffer[12 + n] == SOH
    && buffer[..end] == Before(digits, body)
    && buffer[end..end + 3] == "10=" && buffer[end + 3..end + 6] == check && buffer[end + 6] == SOH
  }

  lemma {:induction false} FramedIsLaid(digits: string, body: string, check: string, rest: string)
    requires |check| == 3
    ensures Laid(Framed(digits, body, check) + rest, digits, body, check)
    ensures |Framed(digits, body, check)| == 13 + |digits| + |body| + 7
  {
  }

  lemma {:induction false} LaidIsFramed(buffer: string, digits: string, body: string, check: string)
    requires Laid(buffer, digits, body, check)
    ensures |check| == 3 && buffer[..13 + |digits| + |body| + 7] == Framed(digits, body, check)
  {
    var end := 13 + |digits| + |body|;
    assert buffer[..end + 7] == buffer[..end] + buffer[end..end + 3] + buffer[end + 3..end + 6] + [buffer[end + 6]];
  }

  /** A numeral has no delimiter in it. */
  lemma {:induction false} DelimiterBehindDigits(buffer: string, digits: string, from: nat)
    requires AllDigits(digits) && from + |digits| < |buffer|
    requires buffer[from..from + |digits|] == digits && buffer[from + |digits|] == SOH
    ensures IndexOf(buffer, SOH, from) == from + |digits|
  {
    forall k | from <= k < from + |digits| ensures buffer[k] != SOH {
      assert buffer[k] == buffer[from..from + |digits|][k - from];
      assert IsDigit(digits[k - from]);
    }
  }

  lemma {:induction false} DelimiterBehindBegin(buffer: string)
    requires |buffer| > 9 && buffer[..9] == BEGIN_STRING && buffer[9] == SOH
    ensures IndexOf(buffer, SOH, 0) == 9
  {
    forall k | 0 <= k < 9 ensures buffer[k] != SOH {
      assert buffer[k] == BEGIN_STRING[k];
    }
  }

  lemma {:induction false} LaidBodyIsComplete(buffer: string, digits: string, body: string, check: string)
    requires Laid(buffer, digits, body, check) && ValidParts(digits, body, check)
    ensures var start := 13 + |digits|; var end := start + |body|;
      ExtractBody(buffer, start, |body|) == Complete(end + 7, buffer[..end + 7])
  {
    ThreeDigits(check);
  }

  lemma {:induction false} LaidIsComplete(buffer: string, digits: string, body: string, check: string)
    requires Laid(buffer, digits, body, check) && ValidParts(digits, body, check)
    ensures var n := 13 + |digits| + |body| + 7; Extract(buffer) == Complete(n, buffer[..n])
  {
    DelimiterBehindBegin(buffer);
    DelimiterBehindDigits(buffer, digits, 12);
    assert buffer[..2] == buffer[..9][..2];
    assert |body| <= SIZE_MAX;
    LaidBodyIsComplete(buffer, digits, body, check);
  }

  /** Every well-formed frame is accepted, whatever follows it. */
  lemma {:induction false} FramedIsComplete(digits: string, body: string, check: string, rest: string)
    requires ValidParts(digits, body, check)
    ensures var f := Framed(digits, body, check); Extract(f + rest) == Complete(|f|, f)
  {
    var buffer := Framed(digits, body, check) + rest;
    FramedIsLaid(digits, body, check, rest);
    LaidIsComplete(buffer, digits, body, check);
  }

  /** Where the length of an accepted buffer stands. */
  lemma {:induction false} CompleteBegin(buffer: string) returns (lengthEnd: nat)
    requires Extract(buffer).Complete?
    ensures 12 <= lengthEnd < |buffer| && buffer[lengthEnd] == SOH
    ensures buffer[..9] == BEGIN_STRING && buffer[9] == SOH && Substr(buffer, 10, 2) == "9="
    ensures var length := ParseUnsigned(buffer[12..lengthEnd]);
      length.Some? && Extract(buffer) == ExtractBody(buffer, lengthEnd + 1, length.value)
  {
    assert IndexOf(buffer, SOH, 0) == 9;
    lengthEnd := IndexOf(buffer, SOH, 12);
  }

  /** A buffer that starts with a header. */
  predicate HasHeader(buffer: string, digits: string) {
    var n := |digits|;
    && 13 + n <= |buffer| && buffer[..9] == BEGIN_STRING && buffer[9] == SOH && buffer[10..12] == "9="
    && buffer[12..12 + n] == digits && buffer[12 + n] == SOH && digits != "" && AllDigits(digits)
  }

  /** The checksum of all that stands before it. */
  predicate HasTrailer(buffer: string, end: nat, check: string) {
    && end + 7 <= |buffer| && end <= SIZE_MAX
    && buffer[end..end + 3] == "10=" && buffer[end + 3..end + 6] == check && buffer[end + 6] == SOH
    && |check| == 3 && AllDigits(check) && Dec(check) == ByteSum(buffer[..end]) % 256
  }

  /** The header of an accepted buffer. */
  lemma {:induction false} CompleteHeader(buffer: string) returns (digits: string)
    requires Extract(buffer).Complete?
    ensures HasHeader(buffer, digits) && Extract(buffer) == ExtractBody(buffer, 13 + |digits|, Dec(digits))
  {
    var lengthEnd := CompleteBegin(buffer);
    digits := buffer[12..lengthEnd];
  }

  /** What stands behind the body of an accepted buffer. */
  lemma {:induction false} CompleteTrailer(buffer: string, start: nat, length: nat) returns (check: string)
    requires start <= |buffer| && ExtractBody(buffer, start, length).Complete?
    ensures HasTrailer(buffer, start + length, check)
  {
    var end := start + length;
    check := buffer[end + 3..end + 6];
    assert Substr(buffer, end, 3) == "10=" && Substr(buffer, end + 3, 3) == check;
  }

  /** Header, body and trailer together. */
  lemma {:induction false} PiecesAreLaid(buffer: string, digits: string, check: string) returns (body: string)
    requires HasHeader(buffer, digits) && HasTrailer(buffer, 13 + |digits| + Dec(digits), check)
    ensures Laid(buffer, digits, body, check) && ValidParts(digits, body, check)
  {
    var start := 13 + |digits|;
    body := buffer[start..start + Dec(digits)];
    BeforePieces(buffer, digits, body);
  }

  lemma {:induction false} BodyIsLaid(buffer: string, digits: string) returns (body: string, check: string)
    requires HasHeader(buffer, digits) && ExtractBody(buffer, 13 + |digits|, Dec(digits)).Complete?
    ensures Laid(buffer, digits, body, check) && ValidParts(digits, body, check)
  {
    check := CompleteTrailer(buffer, 13 + |digits|, Dec(digits));
    body := PiecesAreLaid(buffer, digits, check);
  }

  /** The pieces of an accepted buffer. */
  lemma {:induction false} CompleteIsLaid(buffer: string) returns (digits: string, body: string, check: string)
    requires Extract(buffer).Complete?
    ensures Laid(buffer, digits, body, check) && ValidParts(digits, body, check)
    ensures var n := 13 + |digits| + |body| + 7; Extract(buffer) == Complete(n, buffer[..n])
  {
    digits := CompleteHeader(buffer);
    body, check := BodyIsLaid(buffer, digits);
    LaidIsComplete(buffer, digits, body, check);
  }

  lemma {:induction false} BeforePieces(buffer: string, digits: string, body: string)
    requires var n := |digits|;
      && 13 + n + |body| <= |buffer|
      && buffer[..9] == BEGIN_STRING && buffer[9] == SOH && buffer[10..12] == "9="
      && buffer[12..12 + n] == digits && buffer[12 + n] == SOH && buffer[13 + n..13 + n + |body|] == body
    ensures buffer[..13 + |digits| + |body|] == Before(digits, body)
  {
    var n := |digits|;
    assert buffer[..13 + n + |body|]
        == buffer[..9] + [buffer[9]] + buffer[10..12] + buffer[12..12 + n] + [buffer[12 + n]] + buffer[13 + n..13 + n + |body|];
  }

  /** Every accepted frame is well formed. */
  lemma {:induction false} CompleteIsFramed(buffer: string)
    requires Extract(buffer).Complete?
    ensures var r := Extract(buffer);
      r.consumed <= |buffer| && r.frame == buffer[..r.consumed] && WellFormed(r.frame)
  {
    var digits, body, check := CompleteIsLaid(buffer);
    LaidIsFramed(buffer, digits, body, check);
  }

  /** The framer accepts exactly the frames of the grammar: a prefix of the buffer is taken if
      and only if it is well formed, so at most one prefix of any buffer is. */
  lemma {:induction false} ExtractIsGrammar(buffer: string, n: nat)
    requires n <= |buffer|
    ensures Extract(buffer) == Complete(n, buffer[..n]) <==> WellFormed(buffer[..n])
  {
    if WellFormed(buffer[..n]) {
      var digits, body, check :| ValidParts(digits, body, check) && buffer[..n] == Framed(digits, body, check);
      assert buffer == buffer[..n] + buffer[n..];
      FramedIsComplete(digits, body, check, buffer[n..]);
    }
    if Extract(buffer) == Complete(n, buffer[..n]) {
      CompleteIsFramed(buffer);
    }
  }

  // ---------------------------------------------------------------- verdicts are stable

  lemma {:induction false} BodyVerdictStable(buffer: string, more: string, bodyStart: nat, bodyLength: nat)
    requires bodyStart <= |buffer| && !ExtractBody(buffer, bodyStart, bodyLength).NeedMoreData?
    ensures ExtractBody(buffer + more, bodyStart, bodyLength) == ExtractBody(buffer, bodyStart, bodyLength)
  {
    var all := buffer + more;
    var end := bodyStart + bodyLength;
    if end <= SIZE_MAX {
      assert Substr(all, end, 3) == Substr(buffer, end, 3);
      if |buffer| >= end + 7 {
        assert Substr(all, end + 3, 3) == Substr(buffer, end + 3, 3);
        assert all[..end] == buffer[..end] && all[..end + 7] == buffer[..end + 7];
      }
    }
  }

  /** A verdict never changes when more bytes arrive. */
  lemma {:induction false} VerdictsAreStable(buffer: string, more: string)
    requires !Extract(buffer).NeedMoreData?
    ensures Extract(buffer + more) == Extract(buffer)
  {
    var all := buffer + more;
    assert all[..2] == buffer[..2];
    if buffer[..2] == "8=" {
      var beginEnd := IndexOf(buffer, SOH, 0);
      IndexOfLonger(buffer, more, SOH, 0);
      assert all[..beginEnd] == buffer[..beginEnd];
      if buffer[..beginEnd] == BEGIN_STRING {
        assert Substr(all, 10, 2) == Substr(buffer, 10, 2);
        if Substr(buffer, 10, 2) == "9=" {
          var lengthEnd := IndexOf(buffer, SOH, 12);
          IndexOfLonger(buffer, more, SOH, 12);
          assert all[12..lengthEnd] == buffer[12..lengthEnd];
          var length := ParseUnsigned(buffer[12..lengthEnd]);
          if length.Some? {
            BodyVerdictStable(buffer, more, lengthEnd + 1, length.value);
          }
        }
      }
    }
  }

  /** Every strict prefix of a well-formed frame waits for more data. */
  lemma {:induction false} PrefixesWait(frame: string, n: nat)
    requires WellFormed(frame) && n < |frame|
    ensures Extract(frame[..n]).NeedMoreData?
  {
    if !Extract(frame[..n]).NeedMoreData? {
      VerdictsAreStable(frame[..n], frame[n..]);
      assert frame == frame[..n] + frame[n..] && frame[..|frame|] == frame;
      ExtractIsGrammar(frame, |frame|);
    }
  }

  // ---------------------------------------------------------------- what a refusal and a wait mean

  /** A frame in which everything but the checksum's value is right is refused for exactly
      that. */
  lemma {:induction false} WrongSumIsRefused(digits: string, body: string, check: string, rest: string)
    requires digits != "" && AllDigits(digits) && Dec(digits) == |body| && |Before(digits, body)| <= SIZE_MAX
    requires |check| == 3 && AllDigits(check) && Dec(check) != ByteSum(Before(digits, body)) % 256
    ensures Extract(Framed(digits, body, check) + rest) == Malformed(WrongChecksum)
  {
    var buffer := Framed(digits, body, check) + rest;
    FramedIsLaid(digits, body, check, rest);
    LaidHeader(buffer, digits, body, check);
    ThreeDigits(check);
  }

  lemma {:induction false} LaidHeader(buffer: string, digits: string, body: string, check: string)
    requires Laid(buffer, digits, body, check) && digits != "" && AllDigits(digits) && Dec(digits) == |body| <= SIZE_MAX
    ensures Extract(buffer) == ExtractBody(buffer, 13 + |digits|, |body|)
  {
    DelimiterBehindBegin(buffer);
    DelimiterBehindDigits(buffer, digits, 12);
    assert buffer[..2] == buffer[..9][..2];
  }

  /** No frame waits forever: while the framer wants more data, one of the first two delimiters
      is still missing, or the buffer starts with a readable header and is shorter than the
      frame that header announces. */
  lemma {:induction false} WaitsForTheRest(buffer: string)
    requires Extract(buffer).NeedMoreData?
    ensures var first := IndexOf(buffer, SOH, 0);
      first + 3 > |buffer| ||
      var second := IndexOf(buffer, SOH, first + 3);
      second == |buffer| ||
      (buffer[..first] == BEGIN_STRING && Substr(buffer, first + 1, 2) == "9="
       && ParseUnsigned(buffer[first + 3..second]).Some?
       && |buffer| < second + 1 + ParseUnsigned(buffer[first + 3..second]).value + 7)
  {
  }
}
