/** A snapshot on its whole way: from the exchange's book through the text of the message, the
    client's reassembly and its parser, to the client's ladders. */
module SnapshotPath {
  import opened Text
  import opened Fields
  import opened Framing
  import opened Headers
  import opened ClientReader
  import opened SnapshotWire
  import opened SnapshotCodec
  import Orders
  import Engine
  import Runs
  import Data = MarketData
  import ClientLadder
  import SessionMessages

  // ---------------------------------------------------------------- entries and their text

  /** The character that stands for an entry type. */
  function TypeChar(t: Data.EntryType): char {
    match t
    case Bid => '0'
    case Offer => '1'
    case Trade => '2'
  }

  /** The entry type of a character; the client ignores every other like a trade. */
  function TypeFrom(c: char): Data.EntryType {
    if c == '0' then Data.Bid else if c == '1' then Data.Offer else Data.EntryType.Trade
  }

  /** A price in ten-thousandths. */
  function Units(p: Orders.Price): int {
    (p * 10000.0).Floor
  }

  /** Four decimals are enough for the price. */
  predicate FourDecimals(p: Orders.Price) {
    Units(p) as real == p * 10000.0
  }

  function Sent(e: Data.Entry): Entry {
    Entry(TypeChar(e.etype), Units(e.price), e.size, e.position)
  }

  function SentAll(es: seq<Data.Entry>): (r: seq<Entry>)
    ensures |r| == |es| && forall i | 0 <= i < |es| :: r[i] == Sent(es[i])
  {
    seq(|es|, i requires 0 <= i < |es| => Sent(es[i]))
  }

  function Received(e: Entry): Data.Entry {
    Data.Entry(TypeFrom(e.etype), e.price as real / 10000.0, e.size, e.position)
  }

  function ReceivedAll(es: seq<Entry>): (r: seq<Data.Entry>)
    ensures |r| == |es| && forall i | 0 <= i < |es| :: r[i] == Received(es[i])
  {
    seq(|es|, i requires 0 <= i < |es| => Received(es[i]))
  }

  lemma {:induction false} EntryArrives(e: Data.Entry)
    requires FourDecimals(e.price)
    ensures Received(Sent(e)) == e
  {
    assert Units(e.price) as real / 10000.0 == e.price;
  }

  lemma {:induction false} EntriesArrive(es: seq<Data.Entry>)
    requires forall i | 0 <= i < |es| :: FourDecimals(es[i].price)
    ensures ReceivedAll(SentAll(es)) == es
  {
    forall i | 0 <= i < |es| ensures ReceivedAll(SentAll(es))[i] == es[i] {
      EntryArrives(es[i]);
    }
  }

  // ---------------------------------------------------------------- where the client cuts

  /** The text holds no "10=". */
  predicate NoCheckText(s: string) {
    forall i | 0 <= i < |s| :: !OccursAt(s, "10=", i)
  }

  lemma {:induction false} PlainHasNoCheckText(s: string)
    requires '=' !in s
    ensures NoCheckText(s)
  {
    SessionMessages.CheckMark();
    forall i | 0 <= i < |s| ensures !OccursAt(s, "10=", i) {
      if OccursAt(s, "10=", i) {
        MarkHasEquals(s, 10, i);
      }
    }
  }

  predicate HasNoCheckText(f: Field) {
    SOH !in f.value && NoCheckText(f.value) && f.tag % 100 != 10
  }

  predicate NoneHasCheckText(fs: seq<Field>) {
    forall i | 0 <= i < |fs| :: HasNoCheckText(fs[i])
  }

  lemma {:induction false} NoneInBoth(a: seq<Field>, b: seq<Field>)
    requires NoneHasCheckText(a) && NoneHasCheckText(b)
    ensures NoneHasCheckText(a + b)
  {
  }

  lemma {:induction false} EntryHasNone(e: Entry)
    requires e.etype != SOH
    ensures NoneHasCheckText(EntryFields(e))
  {
    PriceIsPlain(e.price);
    PlainHasNoCheckText(PrintPrice(e.price));
    DigitsArePlain(Decimal(e.size));
    PlainHasNoCheckText(Decimal(e.size));
    DigitsArePlain(Decimal(e.position));
    PlainHasNoCheckText(Decimal(e.position));
    NoneInBoth([Field(269, [e.etype])], Details(e));
  }

  lemma {:induction false} GroupHasNone(es: seq<Entry>)
    requires Typed(es)
    ensures NoneHasCheckText(GroupFields(es))
  {
    if es != [] {
      EntryHasNone(es[0]);
      GroupHasNone(es[1..]);
      NoneInBoth(EntryFields(es[0]), GroupFields(es[1..]));
    }
  }

  lemma {:induction false} FrontHasNone(length: nat, target: nat, seqNum: nat, time: string)
    requires PlainText(time)
    ensures NoneHasCheckText(Front(length, target, seqNum, time))
  {
    var front := Front(length, target, seqNum, time);
    FrontPasses(length, target, seqNum, time);
    forall i | 0 <= i < |front| ensures HasNoCheckText(front[i]) {
      PlainHasNoCheckText(front[i].value);
    }
  }

  lemma {:induction false} LeadingHasNone(s: Snapshot)
    requires SOH !in s.reqId && PlainText(s.symbol) && NoCheckText(s.reqId)
    ensures NoneHasCheckText(Leading(s))
  {
    PlainHasNoCheckText(s.symbol);
    DigitsArePlain(Decimal(|s.entries|));
    PlainHasNoCheckText(Decimal(|s.entries|));
  }

  lemma {:induction false} MessageHasNone(s: Snapshot, target: nat, seqNum: nat, time: string)
    requires Printable(s, time) && NoCheckText(s.reqId)
    ensures NoneHasCheckText(AllFields(s, target, seqNum, time))
  {
    var length := |Print(Content(s, target, seqNum, time))|;
    FrontHasNone(length, target, seqNum, time);
    LeadingHasNone(s);
    GroupHasNone(s.entries);
    NoneInBoth(Front(length, target, seqNum, time), Leading(s));
    NoneInBoth(Front(length, target, seqNum, time) + Leading(s), GroupFields(s.entries));
  }

  /** The text of the message in front of its checksum field, and its parts. */
  lemma {:induction false} TextOf(s: Snapshot, target: nat, seqNum: nat, time: string) returns (text: string, check: string)
    requires Printable(s, time)
    ensures text == Print(AllFields(s, target, seqNum, time)) && check == CheckDigits(text) && SOH !in check
    ensures Convert(s, target, seqNum, time) == text + "10=" + check + [SOH]
    ensures text != "" && text[|text| - 1] == SOH
  {
    text := Print(AllFields(s, target, seqNum, time));
    check := CheckDigits(text);
    CheckDigitsAre(text);
    DigitsArePlain(check);
    EndsInDelimiter(AllFields(s, target, seqNum, time));
    SessionMessages.CheckMark();
    assert Convert(s, target, seqNum, time) == text + ("10=" + check + [SOH]);
  }

  /** What occurs in a text occurs in every longer one. */
  lemma {:induction false} OccursInFront(a: string, b: string, pat: string, k: nat)
    requires OccursAt(a, pat, k)
    ensures OccursAt(a + b, pat, k)
  {
    assert (a + b)[k..k + |pat|] == a[k..k + |pat|];
  }

  lemma {:induction false} OccursBehind(a: string, b: string, pat: string, k: nat)
    requires OccursAt(b, pat, k)
    ensures OccursAt(a + b, pat, |a| + k)
  {
    assert (a + b)[|a| + k..|a| + k + |pat|] == b[k..k + |pat|];
  }

  lemma {:induction false} FixtField(length: nat)
    ensures OccursAt(PrintField(Field(8, "FIXT.1.1")) + PrintField(Field(9, Decimal(length))), Begins(FIXT_BEGIN_STRING), 0)
  {
    assert Decimal(8) == "8" && Decimal(9) == "9";
    var begin, count := PrintField(Field(8, "FIXT.1.1")), PrintField(Field(9, Decimal(length)));
    assert begin == FIXT_BEGIN_STRING + [SOH] && count[..2] == "9=";
    assert (begin + count)[0..13] == begin + count[..2];
  }

  lemma {:induction false} BeginsFixt(s: Snapshot, target: nat, seqNum: nat, time: string)
    ensures OccursAt(Print(AllFields(s, target, seqNum, time)), Begins(FIXT_BEGIN_STRING), 0)
  {
    var length := |Print(Content(s, target, seqNum, time))|;
    var front := Front(length, target, seqNum, time);
    FixtField(length);
    OccursInFront(PrintField(Field(8, "FIXT.1.1")) + PrintField(Field(9, Decimal(length))),
                  Print(SnapshotHeader(target, seqNum, time)), Begins(FIXT_BEGIN_STRING), 0);
    FrontText(length, target, seqNum, time);
    OccursInFront(Print(front), Print(Leading(s)) + Print(GroupFields(s.entries)), Begins(FIXT_BEGIN_STRING), 0);
    PrintThree(front, Leading(s), GroupFields(s.entries));
  }

  /** Where the client ends a message that begins like a snapshot. */
  lemma {:induction false} ExtractsTo(text: string, check: string, rest: string)
    requires SOH !in check && text != "" && text[|text| - 1] == SOH && OccursAt(text, Begins(FIXT_BEGIN_STRING), 0)
    ensures var m := text + "10=" + check + [SOH];
      if Find(text + ("10=" + check + [SOH] + rest), "10=", 0) == |text| then ClientExtract(m + rest) == Complete(|m|, m)
      else ClientExtract(m + rest).Complete? && ClientExtract(m + rest).consumed < |m|
  {
    var m := text + "10=" + check + [SOH];
    assert m + rest == text + ("10=" + check + [SOH] + rest);
    OccursInFront(text, "10=" + check + [SOH] + rest, Begins(FIXT_BEGIN_STRING), 0);
    assert MessageStart(m + rest) == 0;
    CutsFrame(text, check, rest);
    assert (m + rest)[..|m|] == m;
  }

  /** Where no field holds "10=", the checksum field is the first that does. */
  lemma {:induction false} CheckFieldIsFirst(fs: seq<Field>, check: string, rest: string)
    requires NoneHasCheckText(fs) && SOH !in check
    ensures Find(Print(fs) + ("10=" + check + [SOH] + rest), "10=", 0) == |Print(fs)|
  {
    SessionMessages.CheckMark();
    assert forall i | 0 <= i < |fs| :: Passes(fs[i], 10);
    var last := Field(10, check);
    FindPasses(fs, 10, PrintField(last) + rest);
    MarkIsHere(last, rest);
    assert PrintField(last) + rest == "10=" + check + [SOH] + rest;
  }

  lemma {:induction false} RequestInLeading(s: Snapshot, k: nat)
    requires OccursAt(s.reqId, "10=", k) && k < |s.reqId|
    ensures OccursAt(Print(Leading(s)), "10=", |Mark(262)| + k)
  {
    var at := |Mark(262)| + k;
    OccursBehind(Mark(262), s.reqId, "10=", k);
    OccursInFront(Mark(262) + s.reqId, [SOH], "10=", at);
    OccursInFront(RequestText(s.reqId), PrintField(Field(55, s.symbol)) + CountText(Decimal(|s.entries|)), "10=", at);
    LeadingText(s);
  }

  lemma {:induction false} OccursWithin(front: string, s: string, behind: string, pat: string, k: nat)
    requires OccursAt(s, pat, k)
    ensures OccursAt(front + (s + behind), pat, |front| + k)
  {
    OccursInFront(s, behind, pat, k);
    OccursBehind(front, s + behind, pat, k);
  }

  lemma {:induction false} TextParts(s: Snapshot, target: nat, seqNum: nat, time: string) returns (front: string)
    ensures Print(AllFields(s, target, seqNum, time)) == front + (Print(Leading(s)) + Print(GroupFields(s.entries)))
  {
    var fields := Front(|Print(Content(s, target, seqNum, time))|, target, seqNum, time);
    front := Print(fields);
    PrintThree(fields, Leading(s), GroupFields(s.entries));
  }

  lemma {:induction false} RequestInText(s: Snapshot, target: nat, seqNum: nat, time: string, k: nat) returns (n: nat)
    requires OccursAt(s.reqId, "10=", k) && k < |s.reqId|
    ensures OccursAt(Print(AllFields(s, target, seqNum, time)), "10=", n)
  {
    var front := TextParts(s, target, seqNum, time);
    n := |front| + (|Mark(262)| + k);
    RequestInLeading(s, k);
    OccursWithin(front, Print(Leading(s)), Print(GroupFields(s.entries)), "10=", |Mark(262)| + k);
  }

  lemma {:induction false} FirstCheckText(s: Snapshot, target: nat, seqNum: nat, time: string, text: string, check: string, rest: string)
    requires Printable(s, time) && text == Print(AllFields(s, target, seqNum, time)) && SOH !in check
    ensures Find(text + ("10=" + check + [SOH] + rest), "10=", 0) == |text| <==> NoCheckText(s.reqId)
  {
    if NoCheckText(s.reqId) {
      MessageHasNone(s, target, seqNum, time);
      CheckFieldIsFirst(AllFields(s, target, seqNum, time), check, rest);
    } else {
      var k :| 0 <= k < |s.reqId| && OccursAt(s.reqId, "10=", k);
      var n := RequestInText(s, target, seqNum, time, k);
      OccursInFront(text, "10=" + check + [SOH] + rest, "10=", n);
    }
  }

  /** A serialised snapshot reaches the client whole, whatever follows it, if and only if its
      request id does not hold "10="; otherwise it is cut short. */
  lemma {:induction false} SnapshotIsCut(s: Snapshot, target: nat, seqNum: nat, time: string, rest: string)
    requires Printable(s, time)
    ensures var m := Convert(s, target, seqNum, time);
      if NoCheckText(s.reqId) then ClientExtract(m + rest) == Complete(|m|, m)
      else ClientExtract(m + rest).Complete? && ClientExtract(m + rest).consumed < |m|
  {
    var text, check := TextOf(s, target, seqNum, time);
    BeginsFixt(s, target, seqNum, time);
    ExtractsTo(text, check, rest);
    FirstCheckText(s, target, seqNum, time, text, check, rest);
  }

  // ---------------------------------------------------------------- from book to ladder

  /** Every price of the book has at most four decimals. */
  predicate PrintablePrices(e: Engine.State) {
    forall x | x in e.bids + e.asks :: FourDecimals(x.price)
  }

  /** The message of a state's snapshot. */
  function SnapshotOf(e: Engine.State, reqId: string, symbol: string): Snapshot {
    Snapshot(reqId, symbol, SentAll(Data.Snapshot(e)))
  }

  lemma {:induction false} RungPrices(s: seq<Orders.OrderData>, r: Data.Rung)
    requires r in Data.Ladder(s)
    ensures exists x :: x in s && x.price == r.price
  {
    var rest := Data.Ladder(s[1..]);
    assert s == [s[0]] + s[1..];
    if r.price == s[0].price {
      assert s[0] in s;
    } else {
      assert r in rest;
      RungPrices(s[1..], r);
    }
  }

  lemma {:induction false} SnapshotPrices(e: Engine.State)
    requires PrintablePrices(e)
    ensures forall i | 0 <= i < |Data.Snapshot(e)| :: FourDecimals(Data.Snapshot(e)[i].price)
  {
    var bids, asks := Data.Ladder(e.bids), Data.Ladder(e.asks);
    forall i | 0 <= i < |Data.Snapshot(e)| ensures FourDecimals(Data.Snapshot(e)[i].price) {
      if i < |bids| {
        RungPrices(e.bids, bids[i]);
      } else {
        RungPrices(e.asks, asks[i - |bids|]);
      }
    }
  }

  lemma {:induction false} SentIsTyped(es: seq<Data.Entry>)
    ensures Typed(SentAll(es))
  {
  }

  /** After any run: what the exchange publishes comes out of the client's reassembly as one
      message, its parser reads it back whole, and the client's ladders are those of the book,
      as long as no price has more than four decimals, the numbers fit, and the request id
      holds neither a delimiter nor "10=". */
  lemma {:induction false} ClientLoadsTheBook(cs: seq<Engine.Command>, reqId: string, symbol: string,
                                              target: nat, seqNum: nat, time: string, rest: string)
    requires Runs.FreshRun(cs) && PrintablePrices(Runs.Run(cs))
    requires SOH !in reqId && NoCheckText(reqId) && PlainText(symbol) && PlainText(time)
    requires Readable(SnapshotOf(Runs.Run(cs), reqId, symbol))
    ensures var e := Runs.Run(cs); var s := SnapshotOf(e, reqId, symbol); var m := Convert(s, target, seqNum, time);
      && ClientExtract(m + rest) == Complete(|m|, m)
      && ParseMessage(m) == Some(s)
      && ClientLadder.Load(Orders.Buy, ReceivedAll(s.entries)) == Data.Ladder(e.bids)
      && ClientLadder.Load(Orders.Sell, ReceivedAll(s.entries)) == Data.Ladder(e.asks)
  {
    var e := Runs.Run(cs);
    var s := SnapshotOf(e, reqId, symbol);
    SentIsTyped(Data.Snapshot(e));
    SnapshotIsCut(s, target, seqNum, time, rest);
    SnapshotSurvivesTheWire(s, target, seqNum, time);
    SnapshotPrices(e);
    EntriesArrive(Data.Snapshot(e));
    Runs.BookNeverCrossed(cs);
    ClientLadder.SnapshotRoundTrip(e);
  }
}
