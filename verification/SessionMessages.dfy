/** The session messages both sides build, and what the receiving session reads out of them. */
module SessionMessages {
  import opened Sequences
  import opened Text
  import opened Fields
  import opened Outbound
  import opened Headers
  import Wire = SnapshotWire
  import Client = ClientReader

  /** MsgSeqNum and MsgType as the client takes them from the split message; no type means the
      message is ignored. */
  function ReadByClient(message: string): Option<(nat, string)> {
    var found := Split(message);
    if found.None? then None
    else
      var seqNum := SeqNumOf(if 34 in found.value then Some(found.value[34]) else None);
      var msgType := Wire.ValueIn(found.value, 35);
      if seqNum.None? || msgType == "" then None else Some((seqNum.value, msgType))
  }

  /** A built message as one list of fields, checksum included. */
  function BuiltFields(header: seq<Field>, body: seq<Field>): seq<Field> {
    var payload := Print(header) + Print(body);
    Opening(|payload|) + header + body + [Field(10, CheckText(Head(payload)))]
  }

  /** Whatever its payload, a built message is the opening, the payload and the checksum field. */
  lemma {:induction false} WrapIsChecked(payload: string)
    ensures Wrap(payload) == Print(Opening(|payload|)) + payload + PrintField(Field(10, CheckText(Head(payload))))
  {
    var opening, check := WrapText(payload);
    CheckMark();
  }

  lemma {:induction false} BuiltIsPrinted(header: seq<Field>, body: seq<Field>)
    ensures Wrap(Print(header) + Print(body)) == Print(BuiltFields(header, body))
  {
    var payload := Print(header) + Print(body);
    var opening, last := Opening(|payload|), Field(10, CheckText(Head(payload)));
    WrapIsChecked(payload);
    PrintConcat(opening + header + body, [last]);
    PrintConcat(opening + header, body);
    PrintConcat(opening, header);
    PrintOne(last);
    Associate(Print(opening), Print(header), Print(body));
  }

  lemma {:induction false} CheckMark()
    ensures Mark(10) == "10="
  {
    DecimalWidth(10);
    LastDigit(10);
    LastDigit(1);
    assert Decimal(10)[0] == Decimal(1)[0] == '1' && Decimal(10)[1] == '0';
    assert Decimal(10) == "10";
  }

  lemma {:induction false} HeaderLast(sender: string, target: string, seqNum: nat, msgType: string, time: string)
    ensures var h := Header(msgType, sender, target, seqNum, time);
      Wire.LastOf(h, 34) == Some(Decimal(seqNum)) && Wire.LastOf(h, 35) == Some(msgType)
  {
    var h := Header(msgType, sender, target, seqNum, time);
    assert h == h[..3] + ([h[3]] + h[4..]) && h == [h[0]] + h[1..];
    Wire.LastOfConcat(h[..3], [h[3]] + h[4..], 34);
    Wire.LastOfConcat([h[3]], h[4..], 34);
    Wire.LastOfOne(h[3], 34);
    Wire.NoneAmong(h[4..], 34);
    Wire.LastOfConcat([h[0]], h[1..], 35);
    Wire.LastOfOne(h[0], 35);
    Wire.NoneAmong(h[1..], 35);
  }

  /** The last value of a tag that only the header gives. */
  lemma {:induction false} LastInBuilt(header: seq<Field>, body: seq<Field>, tag: nat)
    requires tag > 10 && forall i | 0 <= i < |body| :: body[i].tag != tag
    requires Wire.LastOf(header, tag).Some?
    ensures Wire.LastOf(BuiltFields(header, body), tag) == Wire.LastOf(header, tag)
  {
    var payload := Print(header) + Print(body);
    var opening, last := Opening(|payload|), Field(10, CheckText(Head(payload)));
    Wire.LastOfConcat(opening + header + body, [last], tag);
    Wire.LastOfConcat(opening + header, body, tag);
    Wire.LastOfConcat(opening, header, tag);
    Wire.LastOfOne(last, tag);
    Wire.NoneAmong(body, tag);
  }

  lemma {:induction false} OpeningClean(length: nat)
    ensures Clean(Opening(length))
  {
    DigitsArePlain(Decimal(length));
  }

  lemma {:induction false} CheckClean(head: string)
    ensures Clean([Field(10, CheckText(head))])
  {
    Client.CheckTextIsPlain(head);
  }

  lemma {:induction false} BuiltClean(header: seq<Field>, body: seq<Field>)
    requires Clean(header) && Clean(body)
    ensures Clean(BuiltFields(header, body))
  {
    var payload := Print(header) + Print(body);
    OpeningClean(|payload|);
    CheckClean(Head(payload));
    Wire.CleanMore(Opening(|payload|), header);
    Wire.CleanMore(Opening(|payload|) + header, body);
    Wire.CleanMore(Opening(|payload|) + header + body, [Field(10, CheckText(Head(payload)))]);
  }

  lemma {:induction false} BuiltSplits(header: seq<Field>, body: seq<Field>)
    requires Clean(header) && Clean(body)
    ensures Split(Wrap(Print(header) + Print(body))) == Some(Collect(BuiltFields(header, body), map[]))
  {
    var all := BuiltFields(header, body);
    BuiltIsPrinted(header, body);
    BuiltClean(header, body);
    SplitPrint(all, "");
    assert Print(all) + "" == Print(all);
  }

  /** The client reads back the number and the type of any message that was built from clean
      fields and whose body does not give those tags again. */
  lemma {:induction false} ClientReadsHeader(sender: string, target: string, seqNum: nat, msgType: string, body: seq<Field>, time: string)
    requires seqNum < WORD && msgType != "" && SOH !in msgType && SOH !in sender && SOH !in target && SOH !in time
    requires Clean(body) && forall i | 0 <= i < |body| :: body[i].tag !in {34, 35}
    ensures ReadByClient(BuildMessage(sender, target, seqNum, msgType, Print(body), time)) == Some((seqNum, msgType))
  {
    var h := Header(msgType, sender, target, seqNum, time);
    var all := BuiltFields(h, body);
    DigitsArePlain(Decimal(seqNum));
    BuiltSplits(h, body);
    HeaderLast(sender, target, seqNum, msgType, time);
    LastInBuilt(h, body, 34);
    LastInBuilt(h, body, 35);
    Wire.CollectsLast(all, map[], 34);
    Wire.CollectsLast(all, map[], 35);
    ReadsFound(BuildMessage(sender, target, seqNum, msgType, Print(body), time), Collect(all, map[]), seqNum, msgType);
  }

  lemma {:induction false} ReadsFound(message: string, found: map<int, string>, seqNum: nat, msgType: string)
    requires Split(message) == Some(found) && seqNum < WORD && msgType != ""
    requires 34 in found && found[34] == Decimal(seqNum) && 35 in found && found[35] == msgType
    ensures ReadByClient(message) == Some((seqNum, msgType))
  {
    SeqNumReadsBack(seqNum);
  }

  /** Either end reads the message as it was built. */
  predicate IsRead(message: string, sender: string, seqNum: nat, msgType: string) {
    ReadByClient(message) == Some((seqNum, msgType)) && ReadSeqNum(message) == Some(seqNum) && ReadSender(message) == sender
  }

  lemma {:induction false} SessionMessageIsRead(sender: string, target: string, seqNum: nat, msgType: string, body: seq<Field>, time: string)
    requires seqNum < WORD && |msgType| == 1 && msgType[0] != SOH && SOH !in time
    requires !Hides(sender, 34) && !Hides(target, 34)
    requires Clean(body) && forall i | 0 <= i < |body| :: body[i].tag !in {34, 35}
    ensures IsRead(BuildMessage(sender, target, seqNum, msgType, Print(body), time), sender, seqNum, msgType)
  {
    ClientReadsHeader(sender, target, seqNum, msgType, body, time);
    OneCharHidesNothing(msgType, 34);
    OneCharHidesNothing(msgType, 49);
    HeaderRoundTrip(sender, target, seqNum, msgType, Print(body), time);
  }

  /** A Logon, whatever its heartbeat interval. */
  lemma {:induction false} LogonIsRead(sender: string, target: string, seqNum: nat, heartbeat: int, time: string)
    requires seqNum < WORD && SOH !in time && !Hides(sender, 34) && !Hides(target, 34)
    ensures IsRead(BuildLogon(sender, target, seqNum, heartbeat, time), sender, seqNum, "A")
  {
    DigitsArePlain(Decimal(if heartbeat < 0 then -heartbeat else heartbeat));
    SessionMessageIsRead(sender, target, seqNum, "A", [Field(98, "0"), Field(108, Numeral(heartbeat))], time);
  }

  /** A Logout, whatever its text. */
  lemma {:induction false} LogoutIsRead(sender: string, target: string, seqNum: nat, text: string, time: string)
    requires seqNum < WORD && SOH !in time && SOH !in text && !Hides(sender, 34) && !Hides(target, 34)
    ensures IsRead(BuildLogout(sender, target, seqNum, text, time), sender, seqNum, "5")
  {
    SessionMessageIsRead(sender, target, seqNum, "5", if text == "" then [] else [Field(58, text)], time);
  }

  /** A Heartbeat, whatever test request it answers. */
  lemma {:induction false} HeartbeatIsRead(sender: string, target: string, seqNum: nat, testReqId: string, time: string)
    requires seqNum < WORD && SOH !in time && SOH !in testReqId && !Hides(sender, 34) && !Hides(target, 34)
    ensures IsRead(BuildHeartbeat(sender, target, seqNum, testReqId, time), sender, seqNum, "0")
  {
    SessionMessageIsRead(sender, target, seqNum, "0", if testReqId == "" then [] else [Field(112, testReqId)], time);
  }

  lemma {:induction false} OneCharHidesNothing(value: string, tag: nat)
    requires |value| == 1 && value[0] != SOH && tag >= 10
    ensures !Hides(value, tag)
  {
    DecimalWidth(tag);
    assert |Mark(tag)| >= 2;
  }

  // ---------------------------------------------------------------- a message that is cut

  lemma {:induction false} PrintsBytes(fs: seq<Field>)
    requires forall i | 0 <= i < |fs| :: Bytes(fs[i].value)
    ensures Bytes(Print(fs))
  {
    if fs != [] {
      PrintsBytes(fs[1..]);
      MarkChars(fs[0].tag);
      assert forall k | 0 <= k < |Decimal(fs[0].tag)| :: IsDigit(Decimal(fs[0].tag)[k]);
    }
  }

  /** A Heartbeat that answers a test request whose id holds "10=" does not reach the client
      whole, whoever sends it and whatever follows. */
  lemma {:induction false} HeartbeatIsCut(sender: string, target: string, seqNum: nat, testReqId: string, time: string, k: nat, rest: string)
    requires Bytes(sender) && Bytes(target) && Bytes(testReqId) && Bytes(time) && OccursAt(testReqId, "10=", k)
    ensures var m := BuildHeartbeat(sender, target, seqNum, testReqId, time);
      Client.ClientExtract(m + rest).Complete? && Client.ClientExtract(m + rest).consumed < |m|
  {
    var header, id := Header("0", sender, target, seqNum, time), Field(112, testReqId);
    assert forall i | 0 <= i < |Decimal(seqNum)| :: IsDigit(Decimal(seqNum)[i]);
    PrintsBytes(header);
    PrintsBytes([id]);
    PrintOne(id);
    var payload := Print(header) + Print([id]);
    var n := |Print(header)| + |Mark(112)|;
    assert payload[n + k..n + k + 3] == testReqId[k..k + 3];
    Client.CutAtCheckText(payload, n + k, rest);
  }
}
