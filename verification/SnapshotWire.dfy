/** Market-data snapshots on the wire: the exchange prints a repeating group, the client finds
    its entries again by searching for tags.

    Prices are whole ten-thousandths, the four decimals that are printed. */
module SnapshotWire {
  import opened Sequences
  import opened Text
  import opened Fields
  import opened Outbound
  import opened Headers

  datatype Entry = Entry(etype: char, price: int, size: nat, position: nat)

  datatype Snapshot = Snapshot(reqId: string, symbol: string, entries: seq<Entry>)

  /** What introduces an entry. */
  const TYPE_TAG := "269="
  const NO_TYPE := '\0'

  // ---------------------------------------------------------------- prices

  function Magnitude(i: int): nat {
    if i < 0 then -i else i
  }

  /** Fixed notation with four decimals. */
  function PrintPrice(price: int): string {
    var m := Magnitude(price);
    (if price < 0 then "-" else "") + Decimal(m / 10000) + "." + PadLeft(4, Decimal(m % 10000))
  }

  /** The first four decimals of a fraction. */
  function Fraction(s: string): (n: nat)
  {
    var digits := s[..DigitRun(s)] + "0000";
    assert forall i | 0 <= i < |digits| :: IsDigit(digits[i]);
    Dec(digits[..4])
  }

  /** The number a text starts with, behind blanks: an optional sign, digits, and a fraction
      behind a point. Text without a digit is an error. */
  function ReadPrice(s: string): Option<int> {
    var (negative, t) := Unsign(SkipBlanks(s));
    var n := DigitRun(t);
    var decimals := if n < |t| && t[n] == '.' then t[n + 1..] else "";
    if n == 0 && DigitRun(decimals) == 0 then None
    else
      var m := Dec(t[..n]) * 10000 + Fraction(decimals);
      Some(if negative then -m else m)
  }

  lemma {:induction false} FractionReads(m: nat)
    requires m < 10000
    ensures var s := PadLeft(4, Decimal(m)); |s| == 4 && AllDigits(s) && Fraction(s) == m
  {
    var s := PadLeft(4, Decimal(m));
    PadLeftDec(4, Decimal(m));
    FourDigits(m);
    WholeRun(s);
    assert s[..4] == s && (s + "0000")[..4] == s;
  }

  lemma {:induction false} FourDigits(m: nat)
    requires m < 10000
    ensures |Decimal(m)| <= 4
  {
    ShortNumeral(m / 10);
    DecimalWidth(m);
  }

  lemma {:induction false} RunBefore(digits: string, rest: string)
    requires AllDigits(digits) && (rest != "" ==> !IsDigit(rest[0]))
    ensures DigitRun(digits + rest) == |digits|
  {
    if digits == "" {
      assert digits + rest == rest;
    } else {
      assert (digits + rest)[1..] == digits[1..] + rest;
      RunBefore(digits[1..], rest);
    }
  }

  lemma {:induction false} PlainPrice(whole: string, part: string, n: nat, m: nat)
    requires AllDigits(whole) && whole != "" && part != "" && AllDigits(part)
    requires Dec(whole) == n && Fraction(part) == m
    ensures var s := whole + "." + part; IsDigit(s[0]) && ReadPrice(s) == Some(n * 10000 + m)
  {
    var s := whole + "." + part;
    assert s == whole + ("." + part);
    RunBefore(whole, "." + part);
    assert s[..|whole|] == whole && s[|whole|] == '.' && s[|whole| + 1..] == part;
    assert IsDigit(whole[0]) && s[0] == whole[0];
    PlainNumeral(s);
  }

  lemma {:induction false} NegativePrice(s: string, m: int)
    requires s != "" && IsDigit(s[0]) && ReadPrice(s) == Some(m)
    ensures ReadPrice("-" + s) == Some(-m)
  {
    PlainNumeral(s);
    assert ("-" + s)[1..] == s && SkipBlanks("-" + s) == "-" + s;
  }

  /** Printing and reading a price. */
  lemma {:induction false} PriceRoundTrip(price: int)
    ensures ReadPrice(PrintPrice(price)) == Some(price)
  {
    var m := Magnitude(price);
    var whole, part := Decimal(m / 10000), PadLeft(4, Decimal(m % 10000));
    FractionReads(m % 10000);
    PlainPrice(whole, part, m / 10000, m % 10000);
    var s := whole + "." + part;
    if price < 0 {
      assert PrintPrice(price) == "-" + s;
      NegativePrice(s, m);
    } else {
      assert "" + whole == whole;
    }
  }

  // ---------------------------------------------------------------- printing

  /** Price, size and, when there is one, the position. */
  function Details(e: Entry): seq<Field> {
    [Field(270, PrintPrice(e.price)), Field(271, Decimal(e.size))]
    + if e.position > 0 then [Field(290, Decimal(e.position))] else []
  }

  function EntryFields(e: Entry): seq<Field> {
    [Field(269, [e.etype])] + Details(e)
  }

  function GroupFields(es: seq<Entry>): seq<Field> {
    if es == [] then [] else EntryFields(es[0]) + GroupFields(es[1..])
  }

  /** The fields between the header and the group. */
  function Leading(s: Snapshot): seq<Field> {
    (if s.reqId != "" then [Field(262, s.reqId)] else [])
    + [Field(55, s.symbol), Field(268, Decimal(|s.entries|))]
  }

  // ---------------------------------------------------------------- reading

  /** A field of a block, if it is there; an unreadable one is an error. */
  function Optional<T>(found: map<int, string>, tag: nat, read: string -> Option<T>, otherwise: T): Option<T> {
    if tag in found then read(found[tag]) else Some(otherwise)
  }

  function MakeEntry(etype: char, found: map<int, string>): Option<Entry> {
    var price := Optional(found, 270, ReadPrice, 0);
    var size := Optional(found, 271, ReadSize, 0);
    var position := Optional(found, 290, ReadInt, 0);
    if price.None? || size.None? || position.None? then None
    else Some(Entry(etype, price.value, size.value, position.value % WORD))
  }

  function ReadBlock(etype: char, block: string): Option<Entry> {
    var found := Split(block);
    if found.None? then None else MakeEntry(etype, found.value)
  }

  /** Where the next entry's type tag is passed: behind "269=X" and its delimiter, or, when
      there is none, where the search began. */
  function EntryStart(rest: string): Option<(char, string)> {
    var at := Find(rest, TYPE_TAG, 0);
    if at == |rest| then Some((NO_TYPE, rest))
    else if at + 6 > |rest| then None
    else Some((rest[at + 4], rest[at + 6..]))
  }

  /** An entry's type and the text of its other fields. */
  type Block = (char, string)

  /** n blocks from a text: each reaches to the next type tag or to the end. */
  function Blocks(rest: string, n: nat): Option<seq<Block>> {
    if n == 0 then Some([])
    else
      var start := EntryStart(rest);
      if start.None? then None
      else
        var (etype, after) := start.value;
        var next := Find(after, TYPE_TAG, 0);
        var others := Blocks(after[next..], n - 1);
        if others.None? then None else Some([(etype, after[..next])] + others.value)
  }

  function ReadBlocks(blocks: seq<Block>): Option<seq<Entry>> {
    if blocks == [] then Some([])
    else
      var entry, others := ReadBlock(blocks[0].0, blocks[0].1), ReadBlocks(blocks[1..]);
      if entry.None? || others.None? then None else Some([entry.value] + others.value)
  }

  /** The repeating group: n entries, or an error. */
  function ReadGroup(rest: string, n: nat): Option<seq<Entry>> {
    var blocks := Blocks(rest, n);
    if blocks.None? then None else ReadBlocks(blocks.value)
  }

  // ---------------------------------------------------------------- one block

  function LastOf(fs: seq<Field>, tag: nat): Option<string> {
    if fs == [] then None
    else
      var later := LastOf(fs[1..], tag);
      if later.Some? then later else if fs[0].tag == tag then Some(fs[0].value) else None
  }

  lemma {:induction false} LastOfConcat(a: seq<Field>, b: seq<Field>, tag: nat)
    ensures LastOf(a + b, tag) == if LastOf(b, tag).Some? then LastOf(b, tag) else LastOf(a, tag)
  {
    if a == [] {
      assert a + b == b;
    } else {
      assert (a + b)[1..] == a[1..] + b;
      LastOfConcat(a[1..], b, tag);
    }
  }

  /** What splitting collects for a tag is the last value printed for it. */
  lemma {:induction false} CollectsLast(fs: seq<Field>, found: map<int, string>, tag: nat)
    ensures var all := Collect(fs, found);
      match LastOf(fs, tag)
      case Some(value) => tag in all && all[tag] == value
      case None => (tag in all <==> tag in found) && (tag in found ==> all[tag] == found[tag])
  {
    if fs != [] {
      CollectsLast(fs[1..], found[fs[0].tag := fs[0].value], tag);
    }
  }

  /** Every number fits the type it is read back into. */
  predicate Fits(e: Entry) {
    e.size <= SIZE_MAX && e.position <= INT_MAX
  }

  lemma {:induction false} DetailsLast(e: Entry, rest: seq<Field>)
    requires forall i | 0 <= i < |rest| :: rest[i].tag == 10
    ensures var fs := Details(e) + rest;
      && LastOf(fs, 270) == Some(PrintPrice(e.price)) && LastOf(fs, 271) == Some(Decimal(e.size))
      && LastOf(fs, 290) == if e.position > 0 then Some(Decimal(e.position)) else None
  {
    NoneAmong(rest, 270);
    NoneAmong(rest, 271);
    NoneAmong(rest, 290);
    LastOfConcat(Details(e), rest, 270);
    LastOfConcat(Details(e), rest, 271);
    LastOfConcat(Details(e), rest, 290);
    DetailsAre(e);
  }

  lemma {:induction false} NoneAmong(fs: seq<Field>, tag: nat)
    requires forall i | 0 <= i < |fs| :: fs[i].tag != tag
    ensures LastOf(fs, tag) == None
  {
    if fs != [] {
      NoneAmong(fs[1..], tag);
    }
  }

  lemma {:induction false} LastOfOne(f: Field, tag: nat)
    ensures LastOf([f], tag) == if f.tag == tag then Some(f.value) else None
  {
    assert [f][1..] == [];
  }

  lemma {:induction false} DetailsAre(e: Entry)
    ensures LastOf(Details(e), 270) == Some(PrintPrice(e.price)) && LastOf(Details(e), 271) == Some(Decimal(e.size))
    ensures LastOf(Details(e), 290) == if e.position > 0 then Some(Decimal(e.position)) else None
  {
    var price, size := Field(270, PrintPrice(e.price)), Field(271, Decimal(e.size));
    var position := if e.position > 0 then [Field(290, Decimal(e.position))] else [];
    forall tag | tag in {270, 271, 290}
      ensures LastOf(Details(e), tag)
           == if tag == 270 then Some(price.value) else if tag == 271 then Some(size.value)
              else if e.position > 0 then Some(Decimal(e.position)) else None
    {
      assert Details(e) == [price] + ([size] + position);
      LastOfConcat([price], [size] + position, tag);
      LastOfConcat([size], position, tag);
      LastOfOne(price, tag);
      LastOfOne(size, tag);
      if e.position > 0 {
        LastOfOne(Field(290, Decimal(e.position)), tag);
      }
    }
  }

  lemma {:induction false} PriceIsPlain(price: int)
    ensures SOH !in PrintPrice(price) && '=' !in PrintPrice(price)
  {
    var m := Magnitude(price);
    DigitsArePlain(Decimal(m / 10000));
    FractionReads(m % 10000);
    DigitsArePlain(PadLeft(4, Decimal(m % 10000)));
  }

  lemma {:induction false} DetailsClean(e: Entry)
    ensures Clean(Details(e)) && forall i | 0 <= i < |Details(e)| :: Passes(Details(e)[i], 269)
  {
    PriceIsPlain(e.price);
    DigitsArePlain(Decimal(e.size));
    DigitsArePlain(Decimal(e.position));
    PlainPasses(Field(270, PrintPrice(e.price)), 269);
    PlainPasses(Field(271, Decimal(e.size)), 269);
    PlainPasses(Field(290, Decimal(e.position)), 269);
  }

  /** Reading the block of an entry, with or without the checksum field behind it. */
  lemma {:induction false} BlockReads(e: Entry, rest: seq<Field>)
    requires Clean(rest) && forall i | 0 <= i < |rest| :: rest[i].tag == 10
    ensures ReadBlock(e.etype, Print(Details(e) + rest)) == if Fits(e) then Some(e) else None
  {
    var fs := Details(e) + rest;
    var found := Collect(fs, map[]);
    DetailsClean(e);
    SplitPrint(fs, "");
    assert Print(fs) + "" == Print(fs);
    DetailsLast(e, rest);
    CollectsLast(fs, map[], 270);
    CollectsLast(fs, map[], 271);
    CollectsLast(fs, map[], 290);
    MakesEntry(e, found);
  }

  lemma {:induction false} AssemblesEntry(e: Entry, found: map<int, string>)
    requires Optional(found, 270, ReadPrice, 0) == Some(e.price)
    requires Optional(found, 271, ReadSize, 0) == if e.size <= SIZE_MAX then Some(e.size) else None
    requires Optional(found, 290, ReadInt, 0) == if e.position <= INT_MAX then Some(e.position) else None
    ensures MakeEntry(e.etype, found) == if Fits(e) then Some(e) else None
  {
  }

  lemma {:induction false} SizeIsRead(found: map<int, string>, size: nat)
    requires 271 in found && found[271] == Decimal(size)
    ensures Optional(found, 271, ReadSize, 0) == if size <= SIZE_MAX then Some(size) else None
  {
    ReadsDecimal(size);
  }

  lemma {:induction false} PositionIsRead(found: map<int, string>, position: nat)
    requires if position > 0 then 290 in found && found[290] == Decimal(position) else 290 !in found
    ensures Optional(found, 290, ReadInt, 0) == if position <= INT_MAX then Some(position) else None
  {
    ReadsDecimal(position);
  }

  lemma {:induction false} MakesEntry(e: Entry, found: map<int, string>)
    requires 270 in found && found[270] == PrintPrice(e.price) && 271 in found && found[271] == Decimal(e.size)
    requires if e.position > 0 then 290 in found && found[290] == Decimal(e.position) else 290 !in found
    ensures MakeEntry(e.etype, found) == if Fits(e) then Some(e) else None
  {
    PriceRoundTrip(e.price);
    SizeIsRead(found, e.size);
    PositionIsRead(found, e.position);
    AssemblesEntry(e, found);
  }

  // ---------------------------------------------------------------- the repeating group

  /** Entry types are single characters other than the delimiter. */
  predicate Typed(es: seq<Entry>) {
    forall i | 0 <= i < |es| :: es[i].etype != SOH
  }

  predicate AllFit(es: seq<Entry>) {
    forall i | 0 <= i < |es| :: Fits(es[i])
  }

  lemma {:induction false} TypeTagIs()
    ensures TYPE_TAG == Mark(269)
  {
    DecimalWidth(269);
    DecimalWidth(26);
    LastDigit(269);
    LastDigit(26);
    assert Decimal(269)[..2] == Decimal(26) && Decimal(26)[0] == '2';
  }

  lemma {:induction false} TypeField(etype: char, rest: string)
    requires etype != SOH
    ensures EntryStart(PrintField(Field(269, [etype])) + rest) == Some((etype, rest))
    ensures Find(PrintField(Field(269, [etype])) + rest, TYPE_TAG, 0) == 0
  {
    var f := Field(269, [etype]);
    var s := PrintField(f) + rest;
    TypeTagIs();
    MarkIsHere(f, rest);
    assert |PrintField(f)| == 6;
    assert s[4] == etype && s[6..] == rest;
  }

  /** The search from inside an entry for the next one. */
  lemma {:induction false} NextEntry(e: Entry, more: string)
    ensures var next := Find(Print(Details(e)) + more, TYPE_TAG, 0); next == |Print(Details(e))| + Find(more, TYPE_TAG, 0)
  {
    TypeTagIs();
    DetailsClean(e);
    FindPasses(Details(e), 269, more);
  }

  lemma {:induction false} BlocksStep(rest: string, etype: char, after: string, block: string, tail: string, n: nat, others: seq<Block>)
    requires EntryStart(rest) == Some((etype, after)) && Find(after, TYPE_TAG, 0) == |block| <= |after|
    requires after[..|block|] == block && after[|block|..] == tail && Blocks(tail, n) == Some(others)
    ensures Blocks(rest, n + 1) == Some([(etype, block)] + others)
  {
  }

  /** An entry is taken off the front: its type, its details, and what else belongs to its
      block. */
  lemma {:induction false} TakesBlock(etype: char, details: string, own: string, tail: string, n: nat, others: seq<Block>)
    requires etype != SOH && Blocks(tail, n) == Some(others)
    requires Find(details + (own + tail), TYPE_TAG, 0) == |details + own|
    ensures Blocks(PrintField(Field(269, [etype])) + (details + (own + tail)), n + 1) == Some([(etype, details + own)] + others)
  {
    var after := CutBlock(details, own, tail);
    TypeField(etype, after);
    BlocksStep(PrintField(Field(269, [etype])) + after, etype, after, details + own, tail, n, others);
  }

  lemma {:induction false} CutBlock(details: string, own: string, tail: string) returns (after: string)
    ensures after == details + (own + tail) && |details + own| <= |after|
    ensures after[..|details + own|] == details + own && after[|details + own|..] == tail
  {
    after := details + (own + tail);
    Associate(details, own, tail);
  }

  /** A search for the next entry passes over this text. */
  ghost predicate Skipped(text: string) {
    forall more :: Find(text + more, TYPE_TAG, 0) == |text| + Find(more, TYPE_TAG, 0)
  }

  /** The text of a group whose entries' details are already printed. */
  function ItemsText(items: seq<Block>): string {
    if items == [] then ""
    else PrintField(Field(269, [items[0].0])) + (items[0].1 + ItemsText(items[1..]))
  }

  /** What follows the group ends up in the last block. */
  function ItemBlocks(items: seq<Block>, own: string): seq<Block> {
    if items == [] then []
    else if |items| == 1 then [(items[0].0, items[0].1 + own)]
    else [items[0]] + ItemBlocks(items[1..], own)
  }

  ghost predicate Separable(items: seq<Block>) {
    forall i | 0 <= i < |items| :: items[i].0 != SOH && Skipped(items[i].1)
  }

  lemma {:induction false} ItemsStart(items: seq<Block>, own: string)
    requires items != [] && Separable(items)
    ensures Find(ItemsText(items) + own, TYPE_TAG, 0) == 0
  {
    var rest := items[0].1 + ItemsText(items[1..]) + own;
    assert ItemsText(items) + own == PrintField(Field(269, [items[0].0])) + rest;
    TypeField(items[0].0, rest);
  }

  lemma {:induction false} ItemsTextStep(items: seq<Block>, own: string)
    requires items != []
    ensures ItemsText(items) + own == PrintField(Field(269, [items[0].0])) + (items[0].1 + (ItemsText(items[1..]) + own))
  {
    Associate(PrintField(Field(269, [items[0].0])), items[0].1 + ItemsText(items[1..]), own);
    Associate(items[0].1, ItemsText(items[1..]), own);
  }

  lemma {:induction false} TakesLastItem(item: Block, own: string)
    requires item.0 != SOH && Find(item.1 + own, TYPE_TAG, 0) == |item.1 + own|
    ensures Blocks(PrintField(Field(269, [item.0])) + (item.1 + own), 1) == Some([(item.0, item.1 + own)])
  {
    assert own + "" == own;
    TakesBlock(item.0, item.1, own, "", 0, []);
    assert [(item.0, item.1 + own)] + [] == [(item.0, item.1 + own)];
  }

  lemma {:induction false} TakesFirstItem(item: Block, tail: string, n: nat, others: seq<Block>)
    requires item.0 != SOH && Find(item.1 + tail, TYPE_TAG, 0) == |item.1| && Blocks(tail, n) == Some(others)
    ensures Blocks(PrintField(Field(269, [item.0])) + (item.1 + tail), n + 1) == Some([item] + others)
  {
    var after := item.1 + tail;
    TypeField(item.0, after);
    assert after[..|item.1|] == item.1 && after[|item.1|..] == tail;
    BlocksStep(PrintField(Field(269, [item.0])) + after, item.0, after, item.1, tail, n, others);
  }

  lemma {:induction false} SkipsTo(text: string, more: string)
    requires Skipped(text)
    ensures Find(text + more, TYPE_TAG, 0) == |text| + Find(more, TYPE_TAG, 0)
  {
  }

  /** Cutting the text of a group at its type tags gives back its items. */
  lemma {:induction false} TakesItems(items: seq<Block>, own: string)
    requires items != [] && Separable(items) && Find(own, TYPE_TAG, 0) == |own|
    ensures Blocks(ItemsText(items) + own, |items|) == Some(ItemBlocks(items, own))
  {
    var item, rest := items[0], items[1..];
    ItemsTextStep(items, own);
    if rest == [] {
      assert "" + own == own;
      SkipsTo(item.1, own);
      TakesLastItem(item, own);
    } else {
      TakesItems(rest, own);
      ItemsStart(rest, own);
      SkipsTo(item.1, ItemsText(rest) + own);
      TakesFirstItem(item, ItemsText(rest) + own, |rest|, ItemBlocks(rest, own));
    }
  }

  /** All of them, or an error as soon as one is. */
  function AllOf(results: seq<Option<Entry>>): Option<seq<Entry>> {
    if results == [] then Some([])
    else
      var others := AllOf(results[1..]);
      if results[0].None? || others.None? then None else Some([results[0].value] + others.value)
  }

  lemma {:induction false} ReadsEach(blocks: seq<Block>, results: seq<Option<Entry>>)
    requires |blocks| == |results| && forall i | 0 <= i < |blocks| :: ReadBlock(blocks[i].0, blocks[i].1) == results[i]
    ensures ReadBlocks(blocks) == AllOf(results)
  {
    if blocks != [] {
      ReadsEach(blocks[1..], results[1..]);
    }
  }

  function ResultsOf(es: seq<Entry>): seq<Option<Entry>> {
    if es == [] then [] else [if Fits(es[0]) then Some(es[0]) else None] + ResultsOf(es[1..])
  }

  lemma {:induction false} AllOfResults(es: seq<Entry>)
    ensures AllOf(ResultsOf(es)) == if AllFit(es) then Some(es) else None
  {
    if es != [] {
      AllOfResults(es[1..]);
      assert es == [es[0]] + es[1..];
      assert AllFit(es) <==> Fits(es[0]) && AllFit(es[1..]);
    }
  }

  function ItemsOf(es: seq<Entry>): (items: seq<Block>)
    ensures |items| == |es|
  {
    if es == [] then [] else [(es[0].etype, Print(Details(es[0])))] + ItemsOf(es[1..])
  }

  lemma {:induction false} EntryText(e: Entry)
    ensures Print(EntryFields(e)) == PrintField(Field(269, [e.etype])) + Print(Details(e))
  {
    PrintConcat([Field(269, [e.etype])], Details(e));
    PrintOne(Field(269, [e.etype]));
  }

  lemma {:induction false} PrintsItem(e: Entry, rest: seq<Field>)
    ensures Print(EntryFields(e) + rest) == PrintField(Field(269, [e.etype])) + (Print(Details(e)) + Print(rest))
  {
    EntryText(e);
    PrintConcat(EntryFields(e), rest);
    Associate(PrintField(Field(269, [e.etype])), Print(Details(e)), Print(rest));
  }

  lemma {:induction false} GroupIsItems(es: seq<Entry>)
    ensures Print(GroupFields(es)) == ItemsText(ItemsOf(es))
  {
    if es != [] {
      GroupIsItems(es[1..]);
      PrintsItem(es[0], GroupFields(es[1..]));
      assert ItemsOf(es)[1..] == ItemsOf(es[1..]);
    }
  }

  lemma {:induction false} DetailsAreSkipped(e: Entry)
    ensures Skipped(Print(Details(e)))
  {
    forall more ensures Find(Print(Details(e)) + more, TYPE_TAG, 0) == |Print(Details(e))| + Find(more, TYPE_TAG, 0) {
      NextEntry(e, more);
    }
  }

  lemma {:induction false} SeparableMore(item: Block, items: seq<Block>)
    requires item.0 != SOH && Skipped(item.1) && Separable(items)
    ensures Separable([item] + items)
  {
  }

  lemma {:induction false} ItemsAreSeparable(es: seq<Entry>)
    requires Typed(es)
    ensures Separable(ItemsOf(es))
  {
    if es != [] {
      ItemsAreSeparable(es[1..]);
      DetailsAreSkipped(es[0]);
      SeparableMore((es[0].etype, Print(Details(es[0]))), ItemsOf(es[1..]));
    }
  }

  lemma {:induction false} ItemsRead(es: seq<Entry>, own: seq<Field>)
    requires es != [] && Clean(own) && forall i | 0 <= i < |own| :: own[i].tag == 10
    ensures ReadBlocks(ItemBlocks(ItemsOf(es), Print(own))) == AllOf(ResultsOf(es))
  {
    ItemResults(es, own);
    ReadsEach(ItemBlocks(ItemsOf(es), Print(own)), ResultsOf(es));
  }

  lemma {:induction false} LastItemReads(e: Entry, own: seq<Field>)
    requires Clean(own) && forall i | 0 <= i < |own| :: own[i].tag == 10
    ensures ReadBlock(e.etype, Print(Details(e)) + Print(own)) == if Fits(e) then Some(e) else None
  {
    BlockReads(e, own);
    PrintConcat(Details(e), own);
  }

  lemma {:induction false} ItemReads(e: Entry)
    ensures ReadBlock(e.etype, Print(Details(e))) == if Fits(e) then Some(e) else None
  {
    LastItemReads(e, []);
    assert Print(Details(e)) + Print([]) == Print(Details(e));
  }

  lemma {:induction false} ItemResults(es: seq<Entry>, own: seq<Field>)
    requires es != [] && Clean(own) && forall i | 0 <= i < |own| :: own[i].tag == 10
    ensures var blocks := ItemBlocks(ItemsOf(es), Print(own)); var results := ResultsOf(es);
      && |blocks| == |results| == |es|
      && forall i | 0 <= i < |es| :: ReadBlock(blocks[i].0, blocks[i].1) == results[i]
  {
    var blocks, results := ItemBlocks(ItemsOf(es), Print(own)), ResultsOf(es);
    if |es| == 1 {
      LastItemReads(es[0], own);
      assert results == [if Fits(es[0]) then Some(es[0]) else None];
    } else {
      ItemReads(es[0]);
      ItemResults(es[1..], own);
      MoreItems(es, own);
      OneMoreResult((es[0].etype, Print(Details(es[0]))), if Fits(es[0]) then Some(es[0]) else None,
                    ItemBlocks(ItemsOf(es[1..]), Print(own)), ResultsOf(es[1..]));
    }
  }

  lemma {:induction false} OneMoreResult(block: Block, result: Option<Entry>, blocks: seq<Block>, results: seq<Option<Entry>>)
    requires |blocks| == |results| && ReadBlock(block.0, block.1) == result
    requires forall i | 0 <= i < |blocks| :: ReadBlock(blocks[i].0, blocks[i].1) == results[i]
    ensures var bs, rs := [block] + blocks, [result] + results;
      forall i | 0 <= i < |bs| :: ReadBlock(bs[i].0, bs[i].1) == rs[i]
  {
  }

  lemma {:induction false} MoreItems(es: seq<Entry>, own: seq<Field>)
    requires |es| > 1
    ensures ItemBlocks(ItemsOf(es), Print(own))
         == [(es[0].etype, Print(Details(es[0])))] + ItemBlocks(ItemsOf(es[1..]), Print(own))
    ensures ResultsOf(es) == [if Fits(es[0]) then Some(es[0]) else None] + ResultsOf(es[1..])
  {
    assert ItemsOf(es)[1..] == ItemsOf(es[1..]);
  }

  lemma {:induction false} TrailerHasNoType(check: string)
    requires AllDigits(check)
    ensures var own := [Field(10, check)];
      && Clean(own) && Print(own) == PrintField(own[0])
      && Find(Print(own), TYPE_TAG, 0) == |Print(own)|
  {
    var f := Field(10, check);
    DigitsArePlain(check);
    TypeTagIs();
    PlainPasses(f, 269);
    PrintOne(f);
    FindPassesField(f, 269, "");
    assert PrintField(f) + "" == PrintField(f);
  }

  /** Any number of entries is read back in order from the group and the checksum field behind
      it, exactly when every number fits. */
  lemma {:induction false} GroupReads(es: seq<Entry>, check: string)
    requires Typed(es) && AllDigits(check)
    ensures ReadGroup(Print(GroupFields(es)) + PrintField(Field(10, check)), |es|) == if AllFit(es) then Some(es) else None
  {
    if es != [] {
      var own := [Field(10, check)];
      TrailerHasNoType(check);
      GroupIsItems(es);
      ItemsAreSeparable(es);
      TakesItems(ItemsOf(es), Print(own));
      ItemsRead(es, own);
      AllOfResults(es);
    }
  }

  // ---------------------------------------------------------------- the whole message

  /** Header, request and group: what BodyLength counts. */
  function Content(s: Snapshot, target: nat, seqNum: nat, time: string): seq<Field> {
    SnapshotHeader(target, seqNum, time) + Leading(s) + GroupFields(s.entries)
  }

  function SnapshotHeader(target: nat, seqNum: nat, time: string): seq<Field> {
    [Field(35, "W"), Field(49, "TRADING_CORE"), Field(56, Decimal(target)), Field(34, Decimal(seqNum)), Field(52, time)]
  }

  /** Everything in front of the request id. */
  function Front(length: nat, target: nat, seqNum: nat, time: string): seq<Field> {
    [Field(8, "FIXT.1.1"), Field(9, Decimal(length))] + SnapshotHeader(target, seqNum, time)
  }

  /** The whole message in front of the checksum field. */
  function AllFields(s: Snapshot, target: nat, seqNum: nat, time: string): seq<Field> {
    var length := |Print(Content(s, target, seqNum, time))|;
    Front(length, target, seqNum, time) + Leading(s) + GroupFields(s.entries)
  }

  /** The sum is kept in an unsigned word into which each char is sign-extended; modulo 256
      that is the sum of the signed chars. */
  function CheckSum(text: string): nat {
    SignedSum(text) % 256
  }

  function CheckDigits(text: string): string {
    PadLeft(3, Decimal(CheckSum(text)))
  }

  function Convert(s: Snapshot, target: nat, seqNum: nat, time: string): string {
    var text := Print(AllFields(s, target, seqNum, time));
    text + PrintField(Field(10, CheckDigits(text)))
  }

  function ValueIn(found: map<int, string>, tag: nat): string {
    if tag in found then found[tag] else ""
  }

  /** The group is looked for behind the first text that looks like its count. */
  function GroupAt(message: string, startTag: string, n: nat): Option<seq<Entry>>
    requires startTag != ""
  {
    var pos := Find(message, startTag, 0);
    if pos == |message| then Some([]) else ReadGroup(Behind(message, pos, startTag), n)
  }

  /** What follows a text that stands at a position. */
  function Behind(message: string, pos: nat, tag: string): string
    requires pos + |tag| <= |message|
  {
    message[pos + |tag|..]
  }

  /** How often a loop that counts up to n runs. */
  function Turns(n: int): nat {
    if n < 0 then 0 else n
  }

  function ParseFound(found: map<int, string>, message: string): Option<Snapshot> {
    var reqId, symbol, count := ValueIn(found, 262), ValueIn(found, 55), ValueIn(found, 268);
    if count == "" then Some(Snapshot(reqId, symbol, []))
    else
      var n := ReadInt(count);
      if n.None? then None
      else
        var entries := GroupAt(message, CountText(count), Turns(n.value));
        if entries.None? then None else Some(Snapshot(reqId, symbol, entries.value))
  }

  function ParseSnapshot(message: string): Option<Snapshot> {
    var found := Split(message);
    if found.None? then None else ParseFound(found.value, message)
  }

  function CountText(count: string): (tag: string)
    ensures tag != ""
  {
    PrintField(Field(268, count))
  }

  // ---------------------------------------------------------------- finding the group

  /** Where a text that ends in a delimiter and holds no other can stand: at the end of a
      field. */
  lemma {:induction false} EndsWithField(text: string, rest: string, token: string, i: nat)
    requires SOH !in text && SOH !in token && i <= |text|
    requires OccursAt(text + [SOH] + rest, token + [SOH], i)
    ensures i + |token| + 1 == |text| + 1
  {
    var s, pat := text + [SOH] + rest, token + [SOH];
    OccursChars(s, pat, i);
    assert s[|text|] == SOH && pat[|token|] == SOH;
    assert forall k | 0 <= k < |text| :: s[k] == text[k] && text[k] in text;
    assert forall k | 0 <= k < |token| :: pat[k] == token[k] && token[k] in token;
  }

  /** Fields in front of the group make no difference to it, unless they hold an entry type. */
  lemma {:induction false} ReadGroupSkips(skip: string, group: string, n: nat)
    requires Find(skip + group, TYPE_TAG, 0) == |skip| + Find(group, TYPE_TAG, 0)
    requires n > 0 ==> Find(group, TYPE_TAG, 0) < |group|
    ensures ReadGroup(skip + group, n) == ReadGroup(group, n)
  {
    if n > 0 {
      var at := Find(group, TYPE_TAG, 0);
      if at + 6 <= |group| {
        assert (skip + group)[|skip| + at + 4] == group[at + 4];
        assert (skip + group)[|skip| + at + 6..] == group[at + 6..];
      }
      assert EntryStart(skip + group) == EntryStart(group);
      assert Blocks(skip + group, n) == Blocks(group, n);
    }
  }

  /** The search for the count skips fields that do not hold its tag. */
  lemma {:induction false} CountBehind(fs: seq<Field>, count: string, rest: string)
    requires forall i | 0 <= i < |fs| :: Passes(fs[i], 268)
    ensures var tag := PrintField(Field(268, count));
      Find(Print(fs) + rest, tag, 0) == |Print(fs)| + Find(rest, tag, 0)
  {
    var s, tag := Print(fs) + rest, PrintField(Field(268, count));
    FindPasses(fs, 268, rest);
    forall i | 0 <= i < |Print(fs)| ensures !OccursAt(s, tag, i) {
      if OccursAt(s, tag, i) {
        StartsWithMark(s, count, i);
      }
    }
    FindSkips(Print(fs), rest, tag);
  }

  lemma {:induction false} StartsWithMark(s: string, count: string, i: nat)
    requires OccursAt(s, PrintField(Field(268, count)), i)
    ensures OccursAt(s, Mark(268), i)
  {
    var tag := PrintField(Field(268, count));
    assert s[i..i + |Mark(268)|] == s[i..i + |tag|][..|Mark(268)|] == Mark(268);
  }

  lemma {:induction false} CountIsHere(count: string, group: string)
    ensures var tag := PrintField(Field(268, count)); Find(tag + group, tag, 0) == 0
  {
    var tag := PrintField(Field(268, count));
    assert (tag + group)[0..|tag|] == tag;
  }

  /** Whatever the request id holds: the first text that looks like the count either is the
      count, or ends the request id's own field. */
  lemma {:induction false} CountInRequest(reqId: string, count: string, rest: string)
    requires SOH !in reqId && AllDigits(count)
    ensures var f, tag := Field(262, reqId), PrintField(Field(268, count));
      var p := Find(PrintField(f) + rest, tag, 0);
      p + |tag| == |PrintField(f)| || p == |PrintField(f)| + Find(rest, tag, 0)
  {
    var f, tag := Field(262, reqId), PrintField(Field(268, count));
    var s, text := PrintField(f) + rest, Mark(262) + reqId;
    var p := Find(s, tag, 0);
    if p <= |text| && p < |s| {
      MarkChars(262);
      MarkChars(268);
      DigitsArePlain(count);
      assert SOH !in text && SOH !in Mark(268) + count;
      EndsWithField(text, rest, Mark(268) + count, p);
    } else {
      assert forall i | 0 <= i < |PrintField(f)| :: !OccursAt(s, tag, i);
      FindSkips(PrintField(f), rest, tag);
    }
  }

  /** The group reads the same from behind its count and from behind any earlier match. */
  lemma {:induction false} GroupBehindSymbol(symbol: string, count: string, group: string, n: nat)
    requires SOH !in symbol && '=' !in symbol && AllDigits(count)
    requires if n > 0 then Find(group, TYPE_TAG, 0) == 0 && group != "" else true
    ensures var tag, rest := PrintField(Field(268, count)), PrintField(Field(55, symbol)) + (PrintField(Field(268, count)) + group);
      && Find(rest, tag, 0) == |PrintField(Field(55, symbol))|
      && rest[|PrintField(Field(55, symbol))| + |tag|..] == group
      && ReadGroup(rest, n) == ReadGroup(group, n)
  {
    var f, g := Field(55, symbol), Field(268, count);
    var tag := PrintField(g);
    PlainPasses(f, 268);
    CountBehind([f], count, tag + group);
    PrintOne(f);
    CountIsHere(count, group);
    DigitsArePlain(count);
    TypeTagIs();
    PlainPasses(f, 269);
    PlainPasses(g, 269);
    FindPassesField(f, 269, tag + group);
    FindPassesField(g, 269, group);
    assert PrintField(f) + (tag + group) == PrintField(f) + tag + group;
    ReadGroupSkips(PrintField(f) + tag, group, n);
  }

  function RequestText(reqId: string): string {
    if reqId != "" then PrintField(Field(262, reqId)) else ""
  }

  type Reader = string -> Option<seq<Entry>>

  /** Behind the first match of the count's text, the group can be read. */
  predicate Locates(message: string, tag: string, read: Reader, result: Option<seq<Entry>>)
    requires tag != ""
  {
    var p := Find(message, tag, 0);
    p + |tag| <= |message| && read(Behind(message, p, tag)) == result
  }

  lemma {:induction false} LocatesBehind(front: string, message: string, tag: string, read: Reader, result: Option<seq<Entry>>)
    requires tag != "" && Locates(message, tag, read, result)
    requires Find(front + message, tag, 0) == |front| + Find(message, tag, 0)
    ensures Locates(front + message, tag, read, result)
  {
    var p := Find(message, tag, 0);
    assert (front + message)[|front| + p + |tag|..] == message[p + |tag|..];
  }

  lemma {:induction false} LocatesAtEnd(front: string, rest: string, tag: string, read: Reader, result: Option<seq<Entry>>)
    requires tag != "" && Find(front + rest, tag, 0) + |tag| == |front| && read(rest) == result
    ensures Locates(front + rest, tag, read, result)
  {
    assert (front + rest)[|front|..] == rest;
  }

  /** What stands between the request id and the group, and the group. */
  function SymbolOn(symbol: string, count: string, group: string): string {
    PrintField(Field(55, symbol)) + (CountText(count) + group)
  }

  /** From the request id on, the group is found, wherever the search for its count stops. */
  lemma {:induction false} GroupBehindRequest(reqId: string, rest: string, count: string, read: Reader, result: Option<seq<Entry>>)
    requires SOH !in reqId && AllDigits(count)
    requires Locates(rest, CountText(count), read, result) && read(rest) == result
    ensures Locates(RequestText(reqId) + rest, CountText(count), read, result)
  {
    var tag, request := CountText(count), RequestText(reqId);
    if reqId == "" {
      assert request + rest == rest;
    } else {
      CountInRequest(reqId, count, rest);
      if Find(request + rest, tag, 0) + |tag| == |request| {
        LocatesAtEnd(request, rest, tag, read, result);
      } else {
        LocatesBehind(request, rest, tag, read, result);
      }
    }
  }

  lemma {:induction false} LocatesInMessage(front: seq<Field>, reqId: string, rest: string, count: string, read: Reader, result: Option<seq<Entry>>)
    requires SOH !in reqId && AllDigits(count) && forall i | 0 <= i < |front| :: Passes(front[i], 268)
    requires Locates(rest, CountText(count), read, result) && read(rest) == result
    ensures Locates(Print(front) + (RequestText(reqId) + rest), CountText(count), read, result)
  {
    GroupBehindRequest(reqId, rest, count, read, result);
    CountBehind(front, count, RequestText(reqId) + rest);
    LocatesBehind(Print(front), RequestText(reqId) + rest, CountText(count), read, result);
  }

  lemma {:induction false} LocatesAt(rest: string, pos: nat, tag: string, group: string, read: Reader)
    requires tag != "" && Find(rest, tag, 0) == pos && pos + |tag| <= |rest| && rest[pos + |tag|..] == group
    ensures Locates(rest, tag, read, read(group))
  {
  }

  /** In the whole message. */
  lemma {:induction false} GroupIsFound(front: seq<Field>, reqId: string, symbol: string, count: string, group: string, n: nat)
    requires SOH !in reqId && SOH !in symbol && '=' !in symbol && AllDigits(count)
    requires if n > 0 then Find(group, TYPE_TAG, 0) == 0 && group != "" else true
    requires forall i | 0 <= i < |front| :: Passes(front[i], 268)
    ensures Locates(Print(front) + (RequestText(reqId) + SymbolOn(symbol, count, group)), CountText(count),
                    x => ReadGroup(x, n), ReadGroup(group, n))
  {
    GroupBehindSymbol(symbol, count, group, n);
    LocatesAt(SymbolOn(symbol, count, group), |PrintField(Field(55, symbol))|, CountText(count), group, x => ReadGroup(x, n));
    LocatesInMessage(front, reqId, SymbolOn(symbol, count, group), count, x => ReadGroup(x, n), ReadGroup(group, n));
  }

  // ---------------------------------------------------------------- the fields of the message

  lemma {:induction false} GroupHasNo(es: seq<Entry>, tag: nat)
    requires tag !in {269, 270, 271, 290}
    ensures LastOf(GroupFields(es), tag) == None
  {
    if es != [] {
      GroupHasNo(es[1..], tag);
      NoneAmong(EntryFields(es[0]), tag);
      LastOfConcat(EntryFields(es[0]), GroupFields(es[1..]), tag);
    }
  }

  lemma {:induction false} LeadingHas(s: Snapshot)
    ensures LastOf(Leading(s), 55) == Some(s.symbol) && LastOf(Leading(s), 268) == Some(Decimal(|s.entries|))
    ensures LastOf(Leading(s), 262) == if s.reqId != "" then Some(s.reqId) else None
  {
    var request := if s.reqId != "" then [Field(262, s.reqId)] else [];
    var symbol, count := Field(55, s.symbol), Field(268, Decimal(|s.entries|));
    assert Leading(s) == request + ([symbol] + [count]);
    forall tag | tag in {55, 262, 268}
      ensures LastOf(Leading(s), tag)
           == if tag == 268 then Some(count.value) else if tag == 55 then Some(symbol.value)
              else if s.reqId != "" then Some(s.reqId) else None
    {
      LastOfConcat(request, [symbol] + [count], tag);
      LastOfConcat([symbol], [count], tag);
      LastOfOne(symbol, tag);
      LastOfOne(count, tag);
      if s.reqId != "" {
        LastOfOne(Field(262, s.reqId), tag);
      }
    }
  }

  /** What the client finds under a tag that only stands between header and group. */
  lemma {:induction false} MessageHas(front: seq<Field>, s: Snapshot, last: Field, tag: nat)
    requires tag in {55, 262, 268} && last.tag == 10
    requires forall i | 0 <= i < |front| :: front[i].tag !in {55, 262, 268}
    ensures ValueIn(Collect(front + Leading(s) + GroupFields(s.entries) + [last], map[]), tag)
         == if tag == 55 then s.symbol else if tag == 262 then s.reqId else Decimal(|s.entries|)
  {
    var fs := front + Leading(s) + GroupFields(s.entries) + [last];
    LastOfConcat(front + Leading(s) + GroupFields(s.entries), [last], tag);
    LastOfConcat(front + Leading(s), GroupFields(s.entries), tag);
    LastOfConcat(front, Leading(s), tag);
    LastOfOne(last, tag);
    GroupHasNo(s.entries, tag);
    NoneAmong(front, tag);
    LeadingHas(s);
    CollectsLast(fs, map[], tag);
  }

  predicate PlainText(value: string) {
    SOH !in value && '=' !in value
  }

  lemma {:induction false} FrontPasses(length: nat, target: nat, seqNum: nat, time: string)
    requires PlainText(time)
    ensures var front := Front(length, target, seqNum, time);
      forall i | 0 <= i < |front| :: front[i].tag < 262 && front[i].tag != 55 && PlainText(front[i].value) && Passes(front[i], 268)
  {
    var front := Front(length, target, seqNum, time);
    DigitsArePlain(Decimal(length));
    DigitsArePlain(Decimal(target));
    DigitsArePlain(Decimal(seqNum));
    forall i | 0 <= i < |front|
      ensures front[i].tag < 262 && front[i].tag != 55 && PlainText(front[i].value) && Passes(front[i], 268)
    {
      PlainPasses(front[i], 268);
    }
  }

  lemma {:induction false} GroupClean(es: seq<Entry>)
    requires Typed(es)
    ensures Clean(GroupFields(es))
  {
    if es != [] {
      GroupClean(es[1..]);
      DetailsClean(es[0]);
      CleanMore([Field(269, [es[0].etype])], Details(es[0]));
      CleanMore(EntryFields(es[0]), GroupFields(es[1..]));
    }
  }

  lemma {:induction false} CleanMore(a: seq<Field>, b: seq<Field>)
    requires Clean(a) && Clean(b)
    ensures Clean(a + b)
  {
  }

  /** Request ids hold anything but the delimiter; symbols and times are plain. */
  predicate Printable(s: Snapshot, time: string) {
    SOH !in s.reqId && PlainText(s.symbol) && PlainText(time) && Typed(s.entries)
  }

  lemma {:induction false} MessageClean(s: Snapshot, target: nat, seqNum: nat, time: string, check: string)
    requires Printable(s, time) && AllDigits(check)
    ensures Clean(AllFields(s, target, seqNum, time) + [Field(10, check)])
  {
    var length := |Print(Content(s, target, seqNum, time))|;
    FrontPasses(length, target, seqNum, time);
    GroupClean(s.entries);
    DigitsArePlain(check);
    DigitsArePlain(Decimal(|s.entries|));
    var front := Front(length, target, seqNum, time);
    assert Clean(front) && Clean(Leading(s)) && Clean([Field(10, check)]);
    CleanMore(front, Leading(s));
    CleanMore(front + Leading(s), GroupFields(s.entries));
    CleanMore(AllFields(s, target, seqNum, time), [Field(10, check)]);
  }

  lemma {:induction false} LeadingText(s: Snapshot)
    ensures Print(Leading(s)) == RequestText(s.reqId) + (PrintField(Field(55, s.symbol)) + CountText(Decimal(|s.entries|)))
  {
    var request := if s.reqId != "" then [Field(262, s.reqId)] else [];
    var symbol, count := Field(55, s.symbol), Field(268, Decimal(|s.entries|));
    assert Leading(s) == request + ([symbol] + [count]);
    PrintConcat(request, [symbol] + [count]);
    PrintConcat([symbol], [count]);
    PrintOne(symbol);
    PrintOne(count);
    if s.reqId != "" {
      PrintOne(Field(262, s.reqId));
    }
  }

  /** The message as the search for the group sees it. */
  lemma {:induction false} MessageText(front: seq<Field>, s: Snapshot, last: Field)
    ensures Print(front + Leading(s) + GroupFields(s.entries)) + PrintField(last)
         == Print(front) + (RequestText(s.reqId)
            + SymbolOn(s.symbol, Decimal(|s.entries|), Print(GroupFields(s.entries)) + PrintField(last)))
  {
    PrintConcat(front + Leading(s), GroupFields(s.entries));
    PrintConcat(front, Leading(s));
    LeadingText(s);
    var symbol, count := PrintField(Field(55, s.symbol)), CountText(Decimal(|s.entries|));
    var request, group, trailer := RequestText(s.reqId), Print(GroupFields(s.entries)), PrintField(last);
    Associate(Print(front), request + (symbol + count), group);
    Associate(Print(front), request + (symbol + count) + group, trailer);
    Associate(request, symbol + count, group);
    Associate(request, symbol + count + group, trailer);
    Associate(symbol, count, group);
    Associate(symbol, count + group, trailer);
    Associate(count, group, trailer);
  }

  lemma {:induction false} GroupBegins(es: seq<Entry>, trailer: string)
    requires Typed(es) && trailer != ""
    ensures var group := Print(GroupFields(es)) + trailer;
      |es| > 0 ==> Find(group, TYPE_TAG, 0) == 0 && group != ""
  {
    if es != [] {
      GroupIsItems(es);
      ItemsAreSeparable(es);
      ItemsStart(ItemsOf(es), trailer);
    }
  }

  // ---------------------------------------------------------------- the round trip

  lemma {:induction false} LocatedGroup(message: string, startTag: string, n: nat, result: Option<seq<Entry>>)
    requires startTag != "" && Locates(message, startTag, x => ReadGroup(x, n), result)
    ensures GroupAt(message, startTag, n) == result
  {
  }

  lemma {:induction false} ParsesFound(found: map<int, string>, message: string, s: Snapshot, result: Option<seq<Entry>>)
    requires ValueIn(found, 262) == s.reqId && ValueIn(found, 55) == s.symbol
    requires ValueIn(found, 268) == Decimal(|s.entries|)
    requires result == GroupAt(message, CountText(Decimal(|s.entries|)), |s.entries|)
    ensures ParseFound(found, message)
         == if |s.entries| <= INT_MAX && result.Some? then Some(s.(entries := result.value)) else None
  {
    ReadsDecimal(|s.entries|);
  }

  /** Everything that was printed fits the numbers it is read back into. */
  predicate Readable(s: Snapshot) {
    |s.entries| <= INT_MAX && AllFit(s.entries)
  }

  lemma {:induction false} SplitsMessage(s: Snapshot, target: nat, seqNum: nat, time: string) returns (found: map<int, string>)
    requires Printable(s, time)
    ensures Split(Convert(s, target, seqNum, time)) == Some(found)
    ensures ValueIn(found, 262) == s.reqId && ValueIn(found, 55) == s.symbol && ValueIn(found, 268) == Decimal(|s.entries|)
    ensures ValueIn(found, 35) == "W"
  {
    var fs := AllFields(s, target, seqNum, time);
    var last := Field(10, CheckDigits(Print(fs)));
    var length := |Print(Content(s, target, seqNum, time))|;
    CheckDigitsAre(Print(fs));
    MessageClean(s, target, seqNum, time, last.value);
    PrintConcat(fs, [last]);
    PrintOne(last);
    SplitPrint(fs + [last], "");
    assert Print(fs + [last]) + "" == Convert(s, target, seqNum, time);
    found := Collect(fs + [last], map[]);
    FoundInMessage(length, s, target, seqNum, time, last);
  }

  lemma {:induction false} FoundInMessage(length: nat, s: Snapshot, target: nat, seqNum: nat, time: string, last: Field)
    requires PlainText(time) && last.tag == 10
    ensures var found := Collect(Front(length, target, seqNum, time) + Leading(s) + GroupFields(s.entries) + [last], map[]);
      && ValueIn(found, 262) == s.reqId && ValueIn(found, 55) == s.symbol && ValueIn(found, 268) == Decimal(|s.entries|)
      && ValueIn(found, 35) == "W"
  {
    var front := Front(length, target, seqNum, time);
    FrontPasses(length, target, seqNum, time);
    MessageHas(front, s, last, 262);
    MessageHas(front, s, last, 55);
    MessageHas(front, s, last, 268);
    TypeIsFound(s, front, last);
  }

  lemma {:induction false} CheckDigitsAre(text: string)
    ensures var c := CheckDigits(text); |c| == 3 && AllDigits(c) && Dec(c) == CheckSum(text)
  {
    ShortNumeral(CheckSum(text));
    PadLeftDec(3, Decimal(CheckSum(text)));
  }

  lemma {:induction false} TypeInFront(front: seq<Field>)
    requires |front| == 7 && front[2] == Field(35, "W") && forall i | 3 <= i < 7 :: front[i].tag != 35
    ensures LastOf(front, 35) == Some("W")
  {
    assert front == front[..2] + ([front[2]] + front[3..]);
    LastOfConcat(front[..2], [front[2]] + front[3..], 35);
    LastOfConcat([front[2]], front[3..], 35);
    LastOfOne(front[2], 35);
    NoneAmong(front[3..], 35);
  }

  lemma {:induction false} TypeIsFound(s: Snapshot, front: seq<Field>, last: Field)
    requires |front| == 7 && front[2] == Field(35, "W") && last.tag == 10
    requires forall i | 3 <= i < 7 :: front[i].tag != 35
    ensures ValueIn(Collect(front + Leading(s) + GroupFields(s.entries) + [last], map[]), 35) == "W"
  {
    var fs := front + Leading(s) + GroupFields(s.entries) + [last];
    LastOfConcat(front + Leading(s) + GroupFields(s.entries), [last], 35);
    LastOfConcat(front + Leading(s), GroupFields(s.entries), 35);
    LastOfConcat(front, Leading(s), 35);
    LastOfOne(last, 35);
    GroupHasNo(s.entries, 35);
    NoneAmong(Leading(s), 35);
    TypeInFront(front);
    CollectsLast(fs, map[], 35);
  }

  /** Parsing what the exchange serialised gives back the snapshot: request id, symbol and every
      entry with its type, price, size and position, for any number of entries and any request
      id without a delimiter, exactly when the number of entries and all positions fit 32-bit
      signed integers. Otherwise the client gets nothing. */
  lemma {:induction false} SnapshotRoundTrip(s: Snapshot, target: nat, seqNum: nat, time: string)
    requires Printable(s, time)
    ensures ParseSnapshot(Convert(s, target, seqNum, time)) == if Readable(s) then Some(s) else None
  {
    var fs := AllFields(s, target, seqNum, time);
    var check := CheckDigits(Print(fs));
    var last := Field(10, check);
    var length := |Print(Content(s, target, seqNum, time))|;
    var front := Front(length, target, seqNum, time);
    var count, group, n := Decimal(|s.entries|), Print(GroupFields(s.entries)) + PrintField(last), |s.entries|;
    var found := SplitsMessage(s, target, seqNum, time);
    CheckDigitsAre(Print(fs));
    MessageText(front, s, last);
    FrontPasses(length, target, seqNum, time);
    GroupBegins(s.entries, PrintField(last));
    GroupIsFound(front, s.reqId, s.symbol, count, group, n);
    GroupReads(s.entries, check);
    LocatedGroup(Convert(s, target, seqNum, time), CountText(count), n, ReadGroup(group, n));
    ParsesFound(found, Convert(s, target, seqNum, time), s, ReadGroup(group, n));
  }
}
