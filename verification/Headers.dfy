/** The message header: what the builder writes and what a session reads out of it. */
module Headers {
  import opened Sequences
  import opened Text
  import opened Fields
  import opened Framing
  import opened Outbound

  // ---------------------------------------------------------------- writing

  function Header(msgType: string, sender: string, target: string, seqNum: nat, time: string): seq<Field> {
    [Field(35, msgType), Field(49, sender), Field(56, target), Field(34, Decimal(seqNum)), Field(52, time)]
  }

  function BuildMessage(sender: string, target: string, seqNum: nat, msgType: string, body: string, time: string): string {
    Wrap(Print(Header(msgType, sender, target, seqNum, time)) + body)
  }

  function BuildLogon(sender: string, target: string, seqNum: nat, heartbeat: int, time: string): string {
    BuildMessage(sender, target, seqNum, "A", Print([Field(98, "0"), Field(108, Numeral(heartbeat))]), time)
  }

  function BuildLogout(sender: string, target: string, seqNum: nat, text: string, time: string): string {
    BuildMessage(sender, target, seqNum, "5", if text == "" then "" else Print([Field(58, text)]), time)
  }

  function BuildHeartbeat(sender: string, target: string, seqNum: nat, testReqId: string, time: string): string {
    BuildMessage(sender, target, seqNum, "0", if testReqId == "" then "" else Print([Field(112, testReqId)]), time)
  }

  // ---------------------------------------------------------------- reading

  /** The text from the first occurrence of a tag's mark up to the next delimiter. */
  function ValueOf(message: string, tag: nat): Option<string> {
    var pos := Find(message, Mark(tag), 0);
    if pos == |message| then None
    else
      var end := IndexOf(message, SOH, pos);
      if end == |message| || end < pos + |Mark(tag)| then None else Some(message[pos + |Mark(tag)|..end])
  }

  /** MsgSeqNum as the server reads it: 0 when the field is missing, cut to 32 bits. A field
      that does not start with a number is an error. */
  function SeqNumOf(value: Option<string>): Option<nat> {
    if value.None? then Some(0)
    else
      var n := ReadSize(value.value);
      if n.None? then None else Some(n.value % WORD)
  }

  function ReadSeqNum(message: string): Option<nat> {
    SeqNumOf(ValueOf(message, 34))
  }

  function ReadSender(message: string): string {
    match ValueOf(message, 49)
    case None => ""
    case Some(value) => value
  }

  // ---------------------------------------------------------------- what is written is read

  lemma {:induction false} MarkIsHere(f: Field, rest: string)
    requires SOH !in f.value
    ensures ValueOf(PrintField(f) + rest, f.tag) == Some(f.value)
    ensures Find(PrintField(f) + rest, Mark(f.tag), 0) == 0
  {
    var s, m := PrintField(f) + rest, |Mark(f.tag)|;
    var n := m + |f.value|;
    MarkChars(f.tag);
    assert s[0..m] == Mark(f.tag);
    assert s[n] == SOH;
    assert forall k | 0 <= k < m :: s[k] == Mark(f.tag)[k];
    assert forall k | m <= k < n :: s[k] == f.value[k - m] && f.value[k - m] in f.value;
    assert IndexOf(s, SOH, 0) == n;
    assert s[m..n] == f.value;
  }

  lemma {:induction false} ValueShift(a: string, b: string, tag: nat)
    requires b != "" && Find(b, Mark(tag), 0) == 0 && Find(a + b, Mark(tag), 0) == |a|
    ensures ValueOf(a + b, tag) == ValueOf(b, tag)
  {
    var m, end := |Mark(tag)|, IndexOf(b, SOH, 0);
    IndexOfShift(a, b, SOH, 0);
    if m <= end {
      SliceShift(a, b, m, end);
    }
  }

  /** Reading a tag finds the first field with it, as long as nothing before it holds the
      tag's text. */
  lemma {:induction false} ValueBehind(before: seq<Field>, f: Field, rest: string)
    requires SOH !in f.value && forall i | 0 <= i < |before| :: Passes(before[i], f.tag)
    ensures ValueOf(Print(before) + (PrintField(f) + rest), f.tag) == Some(f.value)
  {
    FindPasses(before, f.tag, PrintField(f) + rest);
    MarkIsHere(f, rest);
    ValueShift(Print(before), PrintField(f) + rest, f.tag);
  }

  lemma {:induction false} MarkHasEquals(s: string, tag: nat, i: nat)
    requires OccursAt(s, Mark(tag), i)
    ensures '=' in s
  {
    MarkChars(tag);
    OccursChars(s, Mark(tag), i);
    assert s[i + |Decimal(tag)|] == '=';
  }

  /** A value without '=' hides no tag. */
  lemma {:induction false} PlainPasses(f: Field, tag: nat)
    requires SOH !in f.value && '=' !in f.value && OtherEnd(f.tag, tag)
    ensures Passes(f, tag)
  {
    forall i | 0 <= i < |f.value| ensures !OccursAt(f.value, Mark(tag), i) {
      if OccursAt(f.value, Mark(tag), i) {
        MarkHasEquals(f.value, tag, i);
      }
    }
  }

  lemma {:induction false} DigitsArePlain(s: string)
    requires AllDigits(s)
    ensures SOH !in s && '=' !in s
  {
    assert forall i | 0 <= i < |s| :: IsDigit(s[i]);
  }

  /** The frame prefix is two more fields. */
  function Opening(length: nat): seq<Field> {
    [Field(8, "FIX.4.4"), Field(9, Decimal(length))]
  }

  lemma {:induction false} PrintOne(f: Field)
    ensures Print([f]) == PrintField(f)
  {
    assert [f][1..] == [] && PrintField(f) + "" == PrintField(f);
  }

  lemma {:induction false} OpeningText(length: nat)
    ensures Print(Opening(length)) == BEGIN_STRING + [SOH] + "9=" + Decimal(length) + [SOH]
  {
    assert Decimal(8) == "8" && Decimal(9) == "9";
    var f, g := Field(8, "FIX.4.4"), Field(9, Decimal(length));
    assert PrintField(f) == BEGIN_STRING + [SOH];
    assert PrintField(g) == "9=" + Decimal(length) + [SOH];
    PrintOne(g);
    assert [f, g][1..] == [g];
  }

  lemma {:induction false} PrintAround(before: seq<Field>, f: Field, after: seq<Field>)
    ensures Print(before + [f] + after) == Print(before) + (PrintField(f) + Print(after))
  {
    assert before + [f] + after == before + ([f] + after);
    PrintConcat(before, [f] + after);
    assert ([f] + after)[1..] == after;
  }

  /** A built message is its opening, its payload, and then the text of the checksum. */
  lemma {:induction false} WrapText(payload: string) returns (opening: string, check: string)
    ensures opening == Print(Opening(|payload|)) && check == "10=" + CheckText(Head(payload)) + [SOH]
    ensures Wrap(payload) == opening + payload + check && Head(payload) == opening + payload
  {
    opening, check := Print(Opening(|payload|)), "10=" + CheckText(Head(payload)) + [SOH];
    OpeningText(|payload|);
    Associate(Head(payload), "10=", CheckText(Head(payload)));
    Associate(Head(payload), "10=" + CheckText(Head(payload)), [SOH]);
  }

  /** Or the opening and the fields, and then the body and the text of the checksum. */
  lemma {:induction false} WrapIsFields(fs: seq<Field>, body: string) returns (length: nat, tail: string)
    ensures Wrap(Print(fs) + body) == Print(Opening(length) + fs) + tail
  {
    var opening, check := WrapText(Print(fs) + body);
    length, tail := |Print(fs) + body|, body + check;
    PrintConcat(Opening(length), fs);
    Associate(opening, Print(fs), body);
    Associate(opening + Print(fs), body, check);
  }

  /** The value breaks its field, or holds the text of the tag that is searched for. */
  predicate Hides(value: string, tag: nat) {
    SOH in value || exists i | 0 <= i < |value| :: OccursAt(value, Mark(tag), i)
  }

  lemma {:induction false} OpeningPasses(length: nat, tag: nat)
    requires tag >= 10
    ensures forall i | 0 <= i < 2 :: Passes(Opening(length)[i], tag)
  {
    DigitsArePlain(Decimal(length));
    PlainPasses(Field(8, "FIX.4.4"), tag);
    PlainPasses(Field(9, Decimal(length)), tag);
  }

  lemma {:induction false} OpenedPasses(length: nat, before: seq<Field>, tag: nat)
    requires tag >= 10 && forall i | 0 <= i < |before| :: Passes(before[i], tag)
    ensures var front := Opening(length) + before; forall i | 0 <= i < |front| :: Passes(front[i], tag)
  {
    OpeningPasses(length, tag);
  }

  lemma {:induction false} BuiltShape(before: seq<Field>, f: Field, after: seq<Field>, body: string)
    returns (front: seq<Field>, rest: string)
    requires f.tag >= 10 && forall i | 0 <= i < |before| :: Passes(before[i], f.tag)
    ensures Wrap(Print(before + [f] + after) + body) == Print(front) + (PrintField(f) + rest)
    ensures forall i | 0 <= i < |front| :: Passes(front[i], f.tag)
  {
    var length, tail := WrapIsFields(before + [f] + after, body);
    front, rest := Opening(length) + before, Print(after) + tail;
    OpenedPasses(length, before, f.tag);
    Associate(Opening(length), before + [f], after);
    Associate(Opening(length), before, [f]);
    PrintAround(front, f, after);
    Associate(Print(front), PrintField(f) + Print(after), tail);
    Associate(PrintField(f), Print(after), tail);
  }

  /** Reading one header field of a built message. */
  lemma {:induction false} BuiltValue(before: seq<Field>, f: Field, after: seq<Field>, body: string)
    requires f.tag >= 10 && SOH !in f.value && forall i | 0 <= i < |before| :: Passes(before[i], f.tag)
    ensures ValueOf(Wrap(Print(before + [f] + after) + body), f.tag) == Some(f.value)
  {
    var front, rest := BuiltShape(before, f, after, body);
    ValueBehind(front, f, rest);
  }

  lemma {:induction false} BuiltSeqNum(sender: string, target: string, seqNum: nat, msgType: string, body: string, time: string)
    requires !Hides(msgType, 34) && !Hides(sender, 34) && !Hides(target, 34)
    ensures ValueOf(BuildMessage(sender, target, seqNum, msgType, body, time), 34) == Some(Decimal(seqNum))
  {
    var h := Header(msgType, sender, target, seqNum, time);
    assert h == h[..3] + [h[3]] + h[4..];
    DigitsArePlain(Decimal(seqNum));
    BuiltValue(h[..3], h[3], h[4..], body);
  }

  lemma {:induction false} BuiltSender(sender: string, target: string, seqNum: nat, msgType: string, body: string, time: string)
    requires !Hides(msgType, 49) && SOH !in sender
    ensures ValueOf(BuildMessage(sender, target, seqNum, msgType, body, time), 49) == Some(sender)
  {
    var h := Header(msgType, sender, target, seqNum, time);
    assert h == h[..1] + [h[1]] + h[2..];
    BuiltValue(h[..1], h[1], h[2..], body);
  }

  lemma {:induction false} SeqNumReadsBack(seqNum: nat)
    requires seqNum < WORD
    ensures SeqNumOf(Some(Decimal(seqNum))) == Some(seqNum)
  {
    ReadsDecimal(seqNum);
  }

  /** Whatever the type, the target, the time and the body of a built message: the server reads
      back exactly the sequence number and the sender it was built with, provided the type and
      the company ids do not themselves hold the text of the tag that is searched for. */
  lemma {:induction false} HeaderRoundTrip(sender: string, target: string, seqNum: nat, msgType: string, body: string, time: string)
    requires seqNum < WORD
    requires !Hides(msgType, 34) && !Hides(sender, 34) && !Hides(target, 34)
    requires !Hides(msgType, 49)
    ensures var m := BuildMessage(sender, target, seqNum, msgType, body, time);
      ReadSeqNum(m) == Some(seqNum) && ReadSender(m) == sender
  {
    BuiltSeqNum(sender, target, seqNum, msgType, body, time);
    BuiltSender(sender, target, seqNum, msgType, body, time);
    SeqNumReadsBack(seqNum);
  }
}
