/** The snapshot serialiser and the client's parser, step by step. */
module SnapshotCodec {
  import opened Sequences
  import opened Text
  import opened Fields
  import opened Outbound
  import opened Headers
  import opened SnapshotWire

  // ---------------------------------------------------------------- the serialiser

  lemma {:induction false} GroupFieldsNext(es: seq<Entry>, i: nat)
    requires i < |es|
    ensures Print(GroupFields(es[..i + 1])) == Print(GroupFields(es[..i])) + Print(EntryFields(es[i]))
  {
    GroupFieldsAppend(es[..i], es[i]);
    assert es[..i + 1] == es[..i] + [es[i]];
    PrintConcat(GroupFields(es[..i]), EntryFields(es[i]));
  }

  lemma {:induction false} GroupFieldsAppend(es: seq<Entry>, e: Entry)
    ensures GroupFields(es + [e]) == GroupFields(es) + EntryFields(e)
  {
    if es == [] {
      assert [e][1..] == [] && es + [e] == [e];
    } else {
      assert (es + [e])[1..] == es[1..] + [e];
      GroupFieldsAppend(es[1..], e);
    }
  }

  lemma {:induction false} PrintFour(a: Field, b: Field, c: Field, rest: seq<Field>)
    ensures Print([a] + ([b, c] + rest)) == PrintField(a) + PrintField(b) + PrintField(c) + Print(rest)
  {
    PrintConcat([a], [b, c] + rest);
    PrintConcat([b, c], rest);
    PrintOne(a);
    PrintOne(c);
    assert [b, c][1..] == [c];
    Associate(PrintField(a), PrintField(b) + PrintField(c), Print(rest));
    Associate(PrintField(a), PrintField(b), PrintField(c));
  }

  lemma {:induction false} EntryPrinted(e: Entry)
    ensures Print(EntryFields(e))
         == PrintField(Field(269, [e.etype])) + PrintField(Field(270, PrintPrice(e.price))) + PrintField(Field(271, Decimal(e.size)))
            + if e.position > 0 then PrintField(Field(290, Decimal(e.position))) else ""
  {
    PrintFour(Field(269, [e.etype]), Field(270, PrintPrice(e.price)), Field(271, Decimal(e.size)),
              if e.position > 0 then [Field(290, Decimal(e.position))] else []);
    PrintOne(Field(290, Decimal(e.position)));
  }

  /** The text of one entry. */
  method EntryToText(e: Entry) returns (text: string)
    ensures text == Print(EntryFields(e))
  {
    text := PrintField(Field(269, [e.etype]));
    text := text + PrintField(Field(270, PrintPrice(e.price)));
    text := text + PrintField(Field(271, Decimal(e.size)));
    if e.position > 0 {
      text := text + PrintField(Field(290, Decimal(e.position)));
    } else {
      assert text + "" == text;
    }
    EntryPrinted(e);
  }

  lemma {:induction false} SignedWrap(a: int, c: int)
    ensures (a % WORD + c % WORD) % WORD == (a + c) % WORD
    ensures (a % WORD) % 256 == a % 256
  {
    var q, r := a / WORD, a % WORD;
    var u, v := c / WORD, c % WORD;
    assert a + c == (q + u) * WORD + (r + v);
    assert a == (q * 0x100_0000) * 256 + r;
  }

  /** Each char is sign-extended to an unsigned word and added up with wrap-around. */
  method SumOfChars(text: string) returns (sum: nat)
    ensures sum == CheckSum(text)
  {
    sum := 0;
    var i := 0;
    while i < |text|
      invariant i <= |text| && sum == SignedSum(text[..i]) % WORD
    {
      assert text[..i + 1][..i] == text[..i];
      SignedWrap(SignedSum(text[..i]), Signed(text[i]));
      sum := (sum + Signed(text[i]) % WORD) % WORD;
      i := i + 1;
    }
    assert text[..i] == text;
    SignedWrap(SignedSum(text), 0);
    sum := sum % 256;
  }

  lemma {:induction false} FrontText(length: nat, target: nat, seqNum: nat, time: string)
    ensures Print(Front(length, target, seqNum, time))
         == PrintField(Field(8, "FIXT.1.1")) + PrintField(Field(9, Decimal(length))) + Print(SnapshotHeader(target, seqNum, time))
  {
    var begin, count := Field(8, "FIXT.1.1"), Field(9, Decimal(length));
    assert Front(length, target, seqNum, time) == [begin] + ([count] + SnapshotHeader(target, seqNum, time));
    PrintConcat([begin], [count] + SnapshotHeader(target, seqNum, time));
    PrintConcat([count], SnapshotHeader(target, seqNum, time));
    PrintOne(begin);
    PrintOne(count);
    assert PrintField(begin) + (PrintField(count) + Print(SnapshotHeader(target, seqNum, time)))
        == PrintField(begin) + PrintField(count) + Print(SnapshotHeader(target, seqNum, time));
  }

  lemma {:induction false} PrintThree(a: seq<Field>, b: seq<Field>, c: seq<Field>)
    ensures Print(a + b + c) == Print(a) + (Print(b) + Print(c))
  {
    PrintConcat(a + b, c);
    PrintConcat(a, b);
    Associate(Print(a), Print(b), Print(c));
  }

  /** Header and body under their BodyLength. */
  function Assembled(header: string, body: string): string {
    PrintField(Field(8, "FIXT.1.1")) + PrintField(Field(9, Decimal(|header| + |body|))) + header + body
  }

  /** The text of the message from its header and body. */
  lemma {:induction false} TextOfAll(s: Snapshot, target: nat, seqNum: nat, time: string, header: string, body: string)
    requires header == Print(SnapshotHeader(target, seqNum, time)) && body == Print(Leading(s)) + Print(GroupFields(s.entries))
    ensures Print(AllFields(s, target, seqNum, time)) == Assembled(header, body)
  {
    var length := |header| + |body|;
    PrintThree(SnapshotHeader(target, seqNum, time), Leading(s), GroupFields(s.entries));
    assert |Print(Content(s, target, seqNum, time))| == length;
    PrintThree(Front(length, target, seqNum, time), Leading(s), GroupFields(s.entries));
    FrontText(length, target, seqNum, time);
  }

  /** The loop over the entries. */
  method GroupToText(es: seq<Entry>) returns (text: string)
    ensures text == Print(GroupFields(es))
  {
    text := "";
    var i := 0;
    while i < |es|
      invariant i <= |es| && text == Print(GroupFields(es[..i]))
    {
      var entryText := EntryToText(es[i]);
      GroupFieldsNext(es, i);
      text := text + entryText;
      i := i + 1;
    }
    assert es[..i] == es;
  }

  method LeadingToText(s: Snapshot) returns (text: string)
    ensures text == Print(Leading(s))
  {
    var symbol, count := PrintField(Field(55, s.symbol)), PrintField(Field(268, Decimal(|s.entries|)));
    text := "";
    if s.reqId != "" {
      text := text + PrintField(Field(262, s.reqId));
    }
    assert text == RequestText(s.reqId);
    text := text + symbol;
    text := text + count;
    LeadingText(s);
    assert RequestText(s.reqId) + symbol + count == RequestText(s.reqId) + (symbol + count);
  }

  method ConvertSnapshot(s: Snapshot, target: nat, seqNum: nat, time: string) returns (message: string)
    ensures message == Convert(s, target, seqNum, time)
  {
    var lead := LeadingToText(s);
    var group := GroupToText(s.entries);
    var text := MessageOf(s, target, seqNum, time, lead + group);
    var checksum := SumOfChars(text);
    message := text + PrintField(Field(10, PadLeft(3, Decimal(checksum))));
  }

  method MessageOf(s: Snapshot, target: nat, seqNum: nat, time: string, body: string) returns (text: string)
    requires body == Print(Leading(s)) + Print(GroupFields(s.entries))
    ensures text == Print(AllFields(s, target, seqNum, time))
  {
    var header := Print(SnapshotHeader(target, seqNum, time));
    text := Assembled(header, body);
    TextOfAll(s, target, seqNum, time, header, body);
  }

  // ---------------------------------------------------------------- the parser

  /** What has been read so far, and what the rest gives. */
  function Onto(done: seq<Entry>, rest: Option<seq<Entry>>): Option<seq<Entry>> {
    if rest.None? then None else Some(done + rest.value)
  }

  lemma {:induction false} GroupTurn(rest: string, n: nat, etype: char, after: string, next: nat, entry: Option<Entry>)
    requires EntryStart(rest) == Some((etype, after)) && next == Find(after, TYPE_TAG, 0)
    requires entry == ReadBlock(etype, after[..next])
    ensures ReadGroup(rest, n + 1) == if entry.None? then None else Onto([entry.value], ReadGroup(after[next..], n))
  {
    var others := Blocks(after[next..], n);
    if others.Some? {
      ReadsFirst((etype, after[..next]), others.value, entry);
    }
  }

  lemma {:induction false} ReadsFirst(b: Block, rest: seq<Block>, entry: Option<Entry>)
    requires entry == ReadBlock(b.0, b.1)
    ensures ReadBlocks([b] + rest) == if entry.None? then None else Onto([entry.value], ReadBlocks(rest))
  {
    assert ([b] + rest)[1..] == rest;
  }

  /** The type of the entry that is searched for from a position, and where its block starts. */
  function EntryAt(message: string, pos: nat): (r: Option<(char, nat)>)
    requires pos <= |message|
    ensures r.Some? ==> pos <= r.value.1 <= |message|
  {
    var typePos := Find(message, TYPE_TAG, pos);
    if typePos == |message| then Some((NO_TYPE, pos))
    else if typePos + 6 > |message| then None
    else Some((message[typePos + 4], typePos + 6))
  }

  lemma {:induction false} EntryAtStarts(message: string, pos: nat)
    requires pos <= |message|
    ensures EntryStart(message[pos..])
         == if EntryAt(message, pos).None? then None
            else Some((EntryAt(message, pos).value.0, message[EntryAt(message, pos).value.1..]))
  {
    FindTail(message, TYPE_TAG, pos);
    var typePos := Find(message, TYPE_TAG, pos);
    if typePos + 6 <= |message| {
      assert message[pos..][typePos - pos + 4] == message[typePos + 4];
      assert message[pos..][typePos - pos + 6..] == message[typePos + 6..];
    }
  }

  lemma {:induction false} NoTurn(rest: string, n: nat)
    requires EntryStart(rest) == None
    ensures ReadGroup(rest, n + 1) == None
  {
  }

  /** One turn of the parser's loop, at a position of the message. */
  lemma {:induction false} TurnAt(message: string, pos: nat, n: nat, etype: char, start: nat, next: nat, entry: Option<Entry>)
    requires pos <= |message| && EntryAt(message, pos) == Some((etype, start))
    requires next == Find(message, TYPE_TAG, start) && entry == ReadBlock(etype, message[start..next])
    ensures ReadGroup(message[pos..], n + 1) == if entry.None? then None else Onto([entry.value], ReadGroup(message[next..], n))
  {
    var after := message[start..];
    EntryAtStarts(message, pos);
    FindTail(message, TYPE_TAG, start);
    assert after[..next - start] == message[start..next] && after[next - start..] == message[next..];
    GroupTurn(message[pos..], n, etype, after, next - start, entry);
  }

  lemma {:induction false} OntoTwice(done: seq<Entry>, e: Entry, rest: Option<seq<Entry>>)
    ensures Onto(done, Onto([e], rest)) == Onto(done + [e], rest)
  {
    if rest.Some? {
      assert done + ([e] + rest.value) == done + [e] + rest.value;
    }
  }

  lemma {:induction false} OntoNothing(rest: Option<seq<Entry>>)
    ensures Onto([], rest) == rest
  {
    if rest.Some? {
      assert [] + rest.value == rest.value;
    }
  }

  /** The block's fields, converted one by one. */
  method ParseBlock(etype: char, block: string) returns (ok: bool, entry: Entry)
    ensures ok <==> ReadBlock(etype, block).Some?
    ensures ok ==> Some(entry) == ReadBlock(etype, block)
  {
    entry := Entry(etype, 0, 0, 0);
    var split, found := SplitToMap(block);
    if !split {
      return false, entry;
    }
    var price := Optional(found, 270, ReadPrice, 0);
    var size := Optional(found, 271, ReadSize, 0);
    var position := Optional(found, 290, ReadInt, 0);
    if price.None? || size.None? || position.None? {
      return false, entry;
    }
    ok, entry := true, Entry(etype, price.value, size.value, position.value % WORD);
  }

  /** The next type tag, or none: then the type is unset and the block starts right here. */
  method FindEntry(message: string, pos: nat) returns (ok: bool, etype: char, start: nat)
    requires pos <= |message|
    ensures EntryAt(message, pos) == if ok then Some((etype, start)) else None
  {
    ok, etype, start := true, NO_TYPE, pos;
    var typePos := Find(message, TYPE_TAG, pos);
    if typePos < |message| {
      if typePos + 6 > |message| {
        return false, etype, start;
      }
      etype := message[typePos + 4];
      start := typePos + 6;
    }
  }

  /** One entry, from a position of the message to the next type tag or the end. */
  method ParseEntry(message: string, pos: nat, ghost n: nat, ghost here: Option<seq<Entry>>)
    returns (ok: bool, entry: Entry, next: nat, ghost there: Option<seq<Entry>>)
    requires pos <= |message| && here == ReadGroup(message[pos..], n + 1)
    ensures next <= |message| && there == ReadGroup(message[next..], n)
    ensures here == if ok then Onto([entry], there) else None
  {
    entry, next, there := Entry(NO_TYPE, 0, 0, 0), pos, ReadGroup(message[pos..], n);
    var found, etype, start := FindEntry(message, pos);
    if !found {
      EntryAtStarts(message, pos);
      NoTurn(message[pos..], n);
      return false, entry, next, there;
    }
    next := Find(message, TYPE_TAG, start);
    TurnAt(message, pos, n, etype, start, next, ReadBlock(etype, message[start..next]));
    ok, entry := ParseBlock(etype, message[start..next]);
    there := ReadGroup(message[next..], n);
  }

  /** What is still to come, for each position and count. */
  lemma {:induction false} Advances(done: seq<Entry>, e: Entry, here: Option<seq<Entry>>, there: Option<seq<Entry>>, whole: Option<seq<Entry>>)
    requires Onto(done, here) == whole && here == Onto([e], there)
    ensures Onto(done + [e], there) == whole
  {
    OntoTwice(done, e, there);
  }

  /** What a position of the message still gives, behind what is done. */
  ghost predicate Reading(message: string, pos: nat, n: nat, done: seq<Entry>, whole: Option<seq<Entry>>) {
    pos <= |message| && Onto(done, ReadGroup(message[pos..], n)) == whole
  }

  /** One turn of the loop over the group. */
  method ParseNext(message: string, pos: nat, ghost n: nat, done: seq<Entry>, ghost whole: Option<seq<Entry>>)
    returns (ok: bool, more: seq<Entry>, next: nat)
    requires Reading(message, pos, n + 1, done, whole)
    ensures if ok then Reading(message, next, n, more, whole) else whole == None
  {
    ghost var here := ReadGroup(message[pos..], n + 1);
    var entry;
    ghost var there;
    ok, entry, next, there := ParseEntry(message, pos, n, here);
    more := done;
    if ok {
      Advances(done, entry, here, there, whole);
      more := done + [entry];
    }
  }

  lemma {:induction false} StartsReading(message: string, from: nat, n: nat)
    requires from <= |message|
    ensures Reading(message, from, n, [], ReadGroup(message[from..], n))
  {
    OntoNothing(ReadGroup(message[from..], n));
  }

  lemma {:induction false} EndsReading(message: string, pos: nat, done: seq<Entry>, whole: Option<seq<Entry>>)
    requires Reading(message, pos, 0, done, whole)
    ensures whole == Some(done)
  {
    assert ReadGroup(message[pos..], 0) == Some([]) && done + [] == done;
  }

  /** The loop over the repeating group, from a position of the message on. */
  method ParseGroup(message: string, from: nat, n: nat) returns (ok: bool, entries: seq<Entry>)
    requires from <= |message|
    ensures ReadGroup(message[from..], n) == if ok then Some(entries) else None
  {
    entries := [];
    ghost var whole := ReadGroup(message[from..], n);
    StartsReading(message, from, n);
    var pos: nat, i: nat := from, 0;
    ghost var todo: nat := n;
    while i < n
      invariant todo == n - i && Reading(message, pos, todo, entries, whole)
    {
      todo := todo - 1;
      ok, entries, pos := ParseNext(message, pos, todo, entries, whole);
      if !ok {
        return;
      }
      i := i + 1;
    }
    EndsReading(message, pos, entries, whole);
    ok := true;
  }

  /** The group behind the first match of its count. */
  method LocateGroup(message: string, startTag: string, n: nat) returns (ok: bool, entries: seq<Entry>)
    requires startTag != ""
    ensures GroupAt(message, startTag, n) == if ok then Some(entries) else None
  {
    var pos := Find(message, startTag, 0);
    if pos == |message| {
      return true, [];
    }
    var start := pos + |startTag|;
    assert Behind(message, pos, startTag) == message[start..];
    ok, entries := ParseGroup(message, start, n);
  }

  method FillSnapshot(found: map<int, string>, message: string) returns (ok: bool, s: Snapshot)
    ensures ParseFound(found, message) == if ok then Some(s) else None
  {
    s := Snapshot(ValueIn(found, 262), ValueIn(found, 55), []);
    var countText := ValueIn(found, 268);
    if countText == "" {
      return true, s;
    }
    var count := ReadInt(countText);
    if count.None? {
      return false, s;
    }
    var read, entries := LocateGroup(message, CountText(countText), Turns(count.value));
    ok, s := read, s.(entries := entries);
  }

  method ParseMarketDataSnapshot(message: string) returns (ok: bool, s: Snapshot)
    ensures ParseSnapshot(message) == if ok then Some(s) else None
  {
    var split, found := SplitToMap(message);
    if !split {
      return false, Snapshot("", "", []);
    }
    ok, s := FillSnapshot(found, message);
  }

  // ---------------------------------------------------------------- the checksum on arrival

  /** The last position of a text, or |s| when there is none. */
  function FindLast(s: string, pat: string, before: nat): (i: nat)
    requires before <= |s|
    ensures i <= |s|
    ensures i < |s| ==> i < before && OccursAt(s, pat, i) && forall k | i < k < before :: !OccursAt(s, pat, k)
    ensures i == |s| ==> forall k | 0 <= k < before :: !OccursAt(s, pat, k)
  {
    if before == 0 then |s|
    else if OccursAt(s, pat, before - 1) then before - 1
    else FindLast(s, pat, before - 1)
  }

  function CheckTag(): string {
    [SOH] + Mark(10)
  }

  /** The checksum printed behind the last checksum tag is that of the text in front of it. */
  predicate ChecksumHolds(message: string) {
    var pos := FindLast(message, CheckTag(), |message|);
    && pos < |message|
    && var expected := ReadInt(message[pos + |CheckTag()|..]);
       expected == Some(CheckSum(message[..pos + 1]))
  }

  /** A received message that is a snapshot; nothing when a check fails. */
  function ParseMessage(message: string): Option<Snapshot> {
    if !ChecksumHolds(message) || Split(message).None? then None
    else
      var msgType := ValueIn(Split(message).value, 35);
      if msgType == "" || msgType[0] != 'W' then None else ParseSnapshot(message)
  }

  lemma {:induction false} CheckTagIs()
    ensures |CheckTag()| == 4 && CheckTag()[0] == SOH && |Mark(10)| == 3 && SOH !in Mark(10)
  {
    DecimalWidth(10);
    DecimalWidth(1);
    MarkChars(10);
  }

  lemma {:induction false} ChecksumIsLast(text: string, check: string)
    requires text != "" && text[|text| - 1] == SOH && |check| == 3 && AllDigits(check)
    ensures var message := text + PrintField(Field(10, check));
      FindLast(message, CheckTag(), |message|) == |text| - 1 && message[|text| + 3..] == check + [SOH]
  {
    var message := text + PrintField(Field(10, check));
    var n := |text|;
    CheckTagIs();
    assert |message| == n + 7;
    assert forall k | n <= k < n + 3 :: message[k] == Mark(10)[k - n] && Mark(10)[k - n] in Mark(10);
    assert forall k | n + 3 <= k < n + 6 :: message[k] == check[k - n - 3] && IsDigit(message[k]);
    assert message[n - 1..n + 3] == CheckTag();
    assert OccursAt(message, CheckTag(), n - 1);
    forall k | n <= k < |message| ensures !OccursAt(message, CheckTag(), k) {
      assert k + 4 <= |message| ==> message[k] != SOH && message[k..k + 4][0] == message[k];
    }
  }

  lemma {:induction false} ChecksumIsKept(text: string, check: string)
    requires text != "" && text[|text| - 1] == SOH && |check| == 3 && AllDigits(check) && Dec(check) == CheckSum(text)
    ensures ChecksumHolds(text + PrintField(Field(10, check)))
  {
    var message := text + PrintField(Field(10, check));
    ChecksumIsLast(text, check);
    CheckTagIs();
    ReadsCheck(check, CheckSum(text));
    assert message[..|text|] == text;
  }

  lemma {:induction false} ParsesChecked(message: string, found: map<int, string>)
    requires ChecksumHolds(message) && Split(message) == Some(found) && ValueIn(found, 35) == "W"
    ensures ParseMessage(message) == ParseSnapshot(message)
  {
  }

  lemma {:induction false} EndsInDelimiter(fs: seq<Field>)
    requires fs != []
    ensures Print(fs) != "" && Print(fs)[|Print(fs)| - 1] == SOH
  {
    if |fs| == 1 {
      PrintOne(fs[0]);
      assert fs == [fs[0]];
    } else {
      EndsInDelimiter(fs[1..]);
    }
  }

  lemma {:induction false} ReadsCheck(check: string, sum: nat)
    requires AllDigits(check) && check != "" && Dec(check) == sum <= INT_MAX
    ensures ReadInt(check + [SOH]) == Some(sum)
  {
    RunBefore(check, [SOH]);
    PlainNumeral(check + [SOH]);
    assert (check + [SOH])[..|check|] == check;
  }

  /** What the exchange serialises, the client's parser accepts and reads back whole: checksum,
      type, request id, symbol and every entry. */
  lemma {:induction false} SnapshotSurvivesTheWire(s: Snapshot, target: nat, seqNum: nat, time: string)
    requires Printable(s, time)
    ensures ParseMessage(Convert(s, target, seqNum, time)) == if Readable(s) then Some(s) else None
  {
    var text := Print(AllFields(s, target, seqNum, time));
    CheckDigitsAre(text);
    EndsInDelimiter(AllFields(s, target, seqNum, time));
    ChecksumIsKept(text, CheckDigits(text));
    var found := SplitsMessage(s, target, seqNum, time);
    SnapshotRoundTrip(s, target, seqNum, time);
    ParsesChecked(Convert(s, target, seqNum, time), found);
  }
}
