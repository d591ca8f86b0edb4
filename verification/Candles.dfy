/** Open/high/low/close candles of one and five minutes, aggregated trade by trade. */
module Candles {
  type Price = real

  const NANOS: nat := 1_000_000_000

  datatype Tick = Tick(price: Price, quantity: nat, timestampNs: int)

  datatype Candle = Candle(start: int, open: Price, high: Price, low: Price, close: Price, volume: nat)

  /** Integer division that truncates toward zero. */
  function Quotient(a: int, b: nat): int
    requires b > 0
  {
    if a >= 0 then a / (b as int) else -((-a) / (b as int))
  }

  /** The start, in seconds, of the interval a number of seconds falls into. */
  function Floor(minutes: nat, seconds: int): int
    requires minutes > 0
  {
    Quotient(seconds, minutes * 60) * (minutes * 60)
  }

  function Bucket(minutes: nat, t: Tick): int
    requires minutes > 0
  {
    Floor(minutes, Quotient(t.timestampNs, NANOS))
  }

  function Max(a: Price, b: Price): Price {
    if a < b then b else a
  }

  function Min(a: Price, b: Price): Price {
    if b < a then b else a
  }

  // ---------------------------------------------------------------- aggregation

  function Opened(start: int, t: Tick): Candle {
    Candle(start, t.price, t.price, t.price, t.price, t.quantity)
  }

  function Extended(c: Candle, t: Tick): Candle {
    Candle(c.start, c.open, Max(c.high, t.price), Min(c.low, t.price), t.price, c.volume + t.quantity)
  }

  /** All candles so far, the live one last, after one more trade. */
  function Put(cs: seq<Candle>, bucket: int, t: Tick): seq<Candle> {
    if cs == [] || bucket > cs[|cs| - 1].start then cs + [Opened(bucket, t)]
    else cs[..|cs| - 1] + [Extended(cs[|cs| - 1], t)]
  }

  function Series(minutes: nat, ticks: seq<Tick>): seq<Candle>
    requires minutes > 0
  {
    if ticks == [] then []
    else Put(Series(minutes, ticks[..|ticks| - 1]), Bucket(minutes, ticks[|ticks| - 1]), ticks[|ticks| - 1])
  }

  // ---------------------------------------------------------------- what a candle should be

  /** The trades of an interval. */
  function Within(minutes: nat, ticks: seq<Tick>, start: int): seq<Tick>
    requires minutes > 0
  {
    if ticks == [] then []
    else
      var before, last := Within(minutes, ticks[..|ticks| - 1], start), ticks[|ticks| - 1];
      if Bucket(minutes, last) == start then before + [last] else before
  }

  function Highest(ts: seq<Tick>): Price
    requires ts != []
  {
    if |ts| == 1 then ts[0].price else Max(Highest(ts[..|ts| - 1]), ts[|ts| - 1].price)
  }

  function Lowest(ts: seq<Tick>): Price
    requires ts != []
  {
    if |ts| == 1 then ts[0].price else Min(Lowest(ts[..|ts| - 1]), ts[|ts| - 1].price)
  }

  function Total(ts: seq<Tick>): nat {
    if ts == [] then 0 else Total(ts[..|ts| - 1]) + ts[|ts| - 1].quantity
  }

  function Summary(start: int, ts: seq<Tick>): Candle
    requires ts != []
  {
    Candle(start, ts[0].price, Highest(ts), Lowest(ts), ts[|ts| - 1].price, Total(ts))
  }

  /** Timestamps never go back. */
  predicate InTime(ticks: seq<Tick>) {
    forall i, j | 0 <= i < j < |ticks| :: ticks[i].timestampNs <= ticks[j].timestampNs
  }

  predicate Ascending(cs: seq<Candle>) {
    forall i, j | 0 <= i < j < |cs| :: cs[i].start < cs[j].start
  }

  predicate Summarised(minutes: nat, ticks: seq<Tick>, cs: seq<Candle>)
    requires minutes > 0
  {
    forall i | 0 <= i < |cs| ::
      Within(minutes, ticks, cs[i].start) != [] && cs[i] == Summary(cs[i].start, Within(minutes, ticks, cs[i].start))
  }

  predicate HasCandle(cs: seq<Candle>, start: int) {
    exists i | 0 <= i < |cs| :: cs[i].start == start
  }

  /** Every trade falls into an interval that has a candle. */
  predicate Covered(minutes: nat, ticks: seq<Tick>, cs: seq<Candle>)
    requires minutes > 0
  {
    forall i | 0 <= i < |ticks| :: HasCandle(cs, Bucket(minutes, ticks[i]))
  }

  lemma {:induction false} TimesGrows(x: int, y: int, d: nat)
    requires x <= y
    ensures x * d <= y * d
  {
    assert (y - x) * d >= 0;
  }

  lemma {:induction false} DivGrows(a: nat, b: nat, d: nat)
    requires a <= b && d > 0
    ensures a / d <= b / d
  {
    var q, r := a / d, b / d;
    assert a == q * d + a % d && b == r * d + b % d;
    assert (r + 1) * d == r * d + d;
    if q > r {
      TimesGrows(r + 1, q, d);
    }
  }

  lemma {:induction false} QuotientSign(a: nat, d: nat)
    requires d > 0
    ensures Quotient(a, d) == a / d >= 0 && Quotient(-(a as int), d) == -((a / d) as int)
  {
    assert 0 / d == 0;
    DivGrows(0, a, d);
  }

  lemma {:induction false} QuotientGrows(a: int, b: int, d: nat)
    requires a <= b && d > 0
    ensures Quotient(a, d) <= Quotient(b, d)
  {
    if a >= 0 {
      DivGrows(a, b, d);
    } else if b < 0 {
      DivGrows(-b, -a, d);
    } else {
      QuotientSign(-a, d);
      QuotientSign(b, d);
    }
  }

  lemma {:induction false} BucketsGrow(minutes: nat, t: Tick, u: Tick)
    requires minutes > 0 && t.timestampNs <= u.timestampNs
    ensures Bucket(minutes, t) <= Bucket(minutes, u)
  {
    var a, b := Quotient(t.timestampNs, NANOS), Quotient(u.timestampNs, NANOS);
    QuotientGrows(t.timestampNs, u.timestampNs, NANOS);
    QuotientGrows(a, b, minutes * 60);
    TimesGrows(Quotient(a, minutes * 60), Quotient(b, minutes * 60), minutes * 60);
  }

  lemma {:induction false} NothingWithin(minutes: nat, ticks: seq<Tick>, start: int)
    requires minutes > 0 && forall i | 0 <= i < |ticks| :: Bucket(minutes, ticks[i]) < start
    ensures Within(minutes, ticks, start) == []
  {
    if ticks != [] {
      NothingWithin(minutes, ticks[..|ticks| - 1], start);
    }
  }

  lemma {:induction false} SummaryOfOne(start: int, t: Tick)
    ensures Summary(start, [t]) == Opened(start, t)
  {
    assert [t][..0] == [] && Total([t]) == Total([]) + t.quantity;
  }

  lemma {:induction false} SummaryOfMore(start: int, ts: seq<Tick>, t: Tick)
    requires ts != []
    ensures Summary(start, ts + [t]) == Extended(Summary(start, ts), t)
  {
    assert (ts + [t])[..|ts|] == ts;
  }

  /** A trade never takes a candle away, and its own interval has one afterwards. */
  lemma {:induction false} PutKeepsCandles(cs: seq<Candle>, bucket: int, t: Tick, start: int)
    requires cs != [] ==> cs[|cs| - 1].start <= bucket
    ensures HasCandle(Put(cs, bucket, t), start) <==> start == bucket || HasCandle(cs, start)
  {
    var cs' := Put(cs, bucket, t);
    assert cs'[|cs'| - 1].start == bucket;
    forall i | 0 <= i < |cs| ensures cs'[i].start == cs[i].start {
    }
  }

  lemma {:induction false} PutIsLast(cs: seq<Candle>, bucket: int, t: Tick)
    requires Ascending(cs) && (cs != [] ==> cs[|cs| - 1].start <= bucket)
    ensures var cs' := Put(cs, bucket, t); Ascending(cs') && cs' != [] && cs'[|cs'| - 1].start == bucket
  {
  }

  /** The live candle is that of the last trade. */
  lemma {:induction false} LiveCandle(minutes: nat, ticks: seq<Tick>)
    requires minutes > 0 && InTime(ticks)
    ensures var cs := Series(minutes, ticks);
      && Ascending(cs) && (cs == [] <==> ticks == [])
      && (ticks != [] ==> cs[|cs| - 1].start == Bucket(minutes, ticks[|ticks| - 1]))
  {
    if ticks != [] {
      var before, t := ticks[..|ticks| - 1], ticks[|ticks| - 1];
      LiveCandle(minutes, before);
      if before != [] {
        BucketsGrow(minutes, before[|before| - 1], t);
      }
      PutIsLast(Series(minutes, before), Bucket(minutes, t), t);
    }
  }

  lemma {:induction false} EarlierBuckets(minutes: nat, ticks: seq<Tick>, t: Tick)
    requires minutes > 0 && InTime(ticks + [t])
    ensures forall i | 0 <= i < |ticks| :: Bucket(minutes, ticks[i]) <= Bucket(minutes, t)
    ensures ticks != [] ==> forall i | 0 <= i < |ticks| :: Bucket(minutes, ticks[i]) <= Bucket(minutes, ticks[|ticks| - 1])
  {
    var all := ticks + [t];
    forall i | 0 <= i < |ticks|
      ensures Bucket(minutes, ticks[i]) <= Bucket(minutes, t) && Bucket(minutes, ticks[i]) <= Bucket(minutes, ticks[|ticks| - 1])
    {
      assert all[i] == ticks[i] && all[|ticks|] == t && all[|ticks| - 1] == ticks[|ticks| - 1];
      BucketsGrow(minutes, ticks[i], t);
      BucketsGrow(minutes, ticks[i], ticks[|ticks| - 1]);
    }
  }

  /** Every candle, finished or live, is the summary of exactly the trades of its interval, and
      every interval with a trade has its candle. */
  lemma {:induction false} CandlesAreSummaries(minutes: nat, ticks: seq<Tick>)
    requires minutes > 0 && InTime(ticks)
    ensures Summarised(minutes, ticks, Series(minutes, ticks))
    ensures Covered(minutes, ticks, Series(minutes, ticks))
  {
    if ticks != [] {
      var before, t := ticks[..|ticks| - 1], ticks[|ticks| - 1];
      assert ticks == before + [t];
      CandlesAreSummaries(minutes, before);
      LiveCandle(minutes, before);
      EarlierBuckets(minutes, before, t);
      PutSummarises(minutes, before, t, Series(minutes, before));
      PutCovers(minutes, before, t, Series(minutes, before));
    }
  }

  lemma {:induction false} PutCovers(minutes: nat, before: seq<Tick>, t: Tick, cs: seq<Candle>)
    requires minutes > 0 && Covered(minutes, before, cs) && (cs != [] ==> cs[|cs| - 1].start <= Bucket(minutes, t))
    ensures Covered(minutes, before + [t], Put(cs, Bucket(minutes, t), t))
  {
    var all, cs' := before + [t], Put(cs, Bucket(minutes, t), t);
    forall i | 0 <= i < |all| ensures HasCandle(cs', Bucket(minutes, all[i])) {
      PutKeepsCandles(cs, Bucket(minutes, t), t, Bucket(minutes, all[i]));
      assert i < |before| ==> HasCandle(cs, Bucket(minutes, before[i]));
    }
  }

  lemma {:induction false} PutSummarises(minutes: nat, before: seq<Tick>, t: Tick, cs: seq<Candle>)
    requires minutes > 0 && Summarised(minutes, before, cs) && Ascending(cs) && (cs == [] <==> before == [])
    requires before != [] ==> cs[|cs| - 1].start == Bucket(minutes, before[|before| - 1])
    requires before != [] ==> forall i | 0 <= i < |before| :: Bucket(minutes, before[i]) <= Bucket(minutes, before[|before| - 1])
    requires forall i | 0 <= i < |before| :: Bucket(minutes, before[i]) <= Bucket(minutes, t)
    ensures Summarised(minutes, before + [t], Put(cs, Bucket(minutes, t), t))
  {
    var all, b, cs' := before + [t], Bucket(minutes, t), Put(cs, Bucket(minutes, t), t);
    assert all[..|all| - 1] == before;
    assert Within(minutes, all, b) == Within(minutes, before, b) + [t];
    if cs == [] || b > cs[|cs| - 1].start {
      NothingWithin(minutes, before, b);
      SummaryOfOne(b, t);
      assert [] + [t] == [t];
    } else {
      SummaryOfMore(b, Within(minutes, before, b), t);
    }
    forall i | 0 <= i < |cs'|
      ensures Within(minutes, all, cs'[i].start) != [] && cs'[i] == Summary(cs'[i].start, Within(minutes, all, cs'[i].start))
    {
      if i < |cs'| - 1 {
        assert cs'[i] == cs[i] && cs[i].start < b;
      }
    }
  }

  // ---------------------------------------------------------------- rolling up

  function HighestOf(cs: seq<Candle>): Price
    requires cs != []
  {
    if |cs| == 1 then cs[0].high else Max(HighestOf(cs[..|cs| - 1]), cs[|cs| - 1].high)
  }

  function LowestOf(cs: seq<Candle>): Price
    requires cs != []
  {
    if |cs| == 1 then cs[0].low else Min(LowestOf(cs[..|cs| - 1]), cs[|cs| - 1].low)
  }

  function VolumeOf(cs: seq<Candle>): nat {
    if cs == [] then 0 else VolumeOf(cs[..|cs| - 1]) + cs[|cs| - 1].volume
  }

  /** One candle for several: open of the first, close of the last, highest high, lowest low,
      summed volume. */
  function Merge(start: int, cs: seq<Candle>): Candle
    requires cs != []
  {
    Candle(start, cs[0].open, HighestOf(cs), LowestOf(cs), cs[|cs| - 1].close, VolumeOf(cs))
  }

  type Coarsening = int -> int

  /** The candles whose start falls into a coarser window. */
  function Window(floor: Coarsening, cs: seq<Candle>, start: int): seq<Candle> {
    if cs == [] then []
    else
      var before, last := Window(floor, cs[..|cs| - 1], start), cs[|cs| - 1];
      if floor(last.start) == start then before + [last] else before
  }

  /** The five-minute window of a start time. */
  function Five(start: int): int {
    Floor(5, start)
  }

  lemma {:induction false} NatFloorsNest(n: nat)
    ensures ((n / 60) * 60) / 300 == n / 300
  {
    var m := n / 60;
    assert n == m * 60 + n % 60;
    assert m == (m / 5) * 5 + m % 5;
  }

  /** Truncating to a minute first makes no difference to the five-minute window, before or
      after 1970. */
  lemma {:induction false} FloorsNest(seconds: int)
    ensures Five(Floor(1, seconds)) == Floor(5, seconds)
  {
    if seconds >= 0 {
      NatFloorsNest(seconds);
    } else {
      NatFloorsNest(-seconds);
    }
  }

  lemma {:induction false} BucketsNest(t: Tick)
    ensures Five(Bucket(1, t)) == Bucket(5, t)
  {
    FloorsNest(Quotient(t.timestampNs, NANOS));
  }

  lemma {:induction false} MergeOfOne(start: int, c: Candle)
    ensures Merge(start, [c]) == c.(start := start)
  {
    assert [c][..0] == [] && VolumeOf([c]) == VolumeOf([]) + c.volume;
  }

  /** A new one-minute candle, or more in the last one, does to the merged candle exactly what
      the trade does to a five-minute candle. */
  lemma {:induction false} MergeMore(start: int, cs: seq<Candle>, bucket: int, t: Tick)
    requires cs != []
    ensures Merge(start, cs + [Opened(bucket, t)]) == Extended(Merge(start, cs), t)
    ensures Merge(start, cs[..|cs| - 1] + [Extended(cs[|cs| - 1], t)]) == Extended(Merge(start, cs), t)
  {
    var more, last := cs + [Opened(bucket, t)], cs[..|cs| - 1] + [Extended(cs[|cs| - 1], t)];
    assert more[..|cs|] == cs;
    assert last[..|cs| - 1] == cs[..|cs| - 1];
  }

  /** Both granularities together: five-minute candles are merged windows, and the window of
      every one-minute candle has its five-minute candle. */
  predicate RolledUp(floor: Coarsening, ones: seq<Candle>, fives: seq<Candle>) {
    && (ones == [] <==> fives == [])
    && (forall i | 0 <= i < |fives| ::
          Window(floor, ones, fives[i].start) != [] && fives[i] == Merge(fives[i].start, Window(floor, ones, fives[i].start)))
    && (forall i | 0 <= i < |ones| :: HasCandle(fives, floor(ones[i].start)))
  }

  lemma {:induction false} NoWindow(floor: Coarsening, cs: seq<Candle>, start: int)
    requires forall i | 0 <= i < |cs| :: floor(cs[i].start) < start
    ensures Window(floor, cs, start) == []
  {
    if cs != [] {
      NoWindow(floor, cs[..|cs| - 1], start);
    }
  }

  /** How one trade changes the windows of the one-minute candles. */
  lemma {:induction false} PutInWindow(floor: Coarsening, ones: seq<Candle>, bucket: int, t: Tick, start: int)
    requires ones != [] ==> ones[|ones| - 1].start <= bucket
    ensures var w, w' := Window(floor, ones, start), Window(floor, Put(ones, bucket, t), start);
      if floor(bucket) != start then w' == w
      else if ones == [] || bucket > ones[|ones| - 1].start then w' == w + [Opened(bucket, t)]
      else w != [] && w' == w[..|w| - 1] + [Extended(w[|w| - 1], t)]
  {
    var ones' := Put(ones, bucket, t);
    if ones == [] || bucket > ones[|ones| - 1].start {
      assert ones'[..|ones'| - 1] == ones;
    } else {
      assert ones'[..|ones'| - 1] == ones[..|ones| - 1];
    }
  }

  /** What a trade does to its own five-minute candle. */
  lemma {:induction false} OwnWindow(floor: Coarsening, ones: seq<Candle>, fives: seq<Candle>, one: int, t: Tick)
    requires RolledUp(floor, ones, fives) && Ascending(fives)
    requires ones != [] ==> ones[|ones| - 1].start <= one
    requires fives != [] ==> fives[|fives| - 1].start <= floor(one)
    ensures var fives' := Put(fives, floor(one), t); var w := Window(floor, Put(ones, one, t), floor(one));
      w != [] && fives' != [] && fives'[|fives'| - 1] == Merge(floor(one), w)
  {
    var five, w := floor(one), Window(floor, ones, floor(one));
    PutInWindow(floor, ones, one, t, five);
    if fives == [] || five > fives[|fives| - 1].start {
      WindowsEnd(floor, ones, fives, five);
      NoWindow(floor, ones, five);
      MergeOfOne(five, Opened(one, t));
      assert [] + [Opened(one, t)] == [Opened(one, t)];
    } else {
      MergeMore(five, w, one, t);
    }
  }

  /** The window of every one-minute candle starts no later than the last five-minute candle. */
  lemma {:induction false} WindowsEnd(floor: Coarsening, ones: seq<Candle>, fives: seq<Candle>, five: int)
    requires RolledUp(floor, ones, fives) && Ascending(fives)
    requires fives != [] ==> five > fives[|fives| - 1].start
    ensures forall i | 0 <= i < |ones| :: floor(ones[i].start) < five
  {
    forall i | 0 <= i < |ones| ensures floor(ones[i].start) < five {
      assert HasCandle(fives, floor(ones[i].start));
    }
  }

  /** The other five-minute candles keep theirs. */
  lemma {:induction false} OtherWindows(floor: Coarsening, ones: seq<Candle>, fives: seq<Candle>, one: int, t: Tick, i: nat)
    requires RolledUp(floor, ones, fives) && Ascending(fives)
    requires ones != [] ==> ones[|ones| - 1].start <= one
    requires fives != [] ==> fives[|fives| - 1].start <= floor(one)
    requires i < |Put(fives, floor(one), t)| - 1
    ensures var five' := Put(fives, floor(one), t)[i]; var w := Window(floor, Put(ones, one, t), five'.start);
      w != [] && five' == Merge(five'.start, w)
  {
    assert Put(fives, floor(one), t)[i] == fives[i] && fives[i].start < floor(one);
    PutInWindow(floor, ones, one, t, fives[i].start);
  }

  lemma {:induction false} WindowsHaveCandles(floor: Coarsening, ones: seq<Candle>, fives: seq<Candle>, one: int, t: Tick, i: nat)
    requires RolledUp(floor, ones, fives) && i < |Put(ones, one, t)|
    requires ones != [] ==> ones[|ones| - 1].start <= one
    requires fives != [] ==> fives[|fives| - 1].start <= floor(one)
    ensures HasCandle(Put(fives, floor(one), t), floor(Put(ones, one, t)[i].start))
  {
    var c := Put(ones, one, t)[i];
    PutKeepsCandles(fives, floor(one), t, floor(c.start));
    if i < |ones| {
      assert c.start == ones[i].start && HasCandle(fives, floor(ones[i].start));
    }
  }

  lemma {:induction false} PutRollsUp(floor: Coarsening, ones: seq<Candle>, fives: seq<Candle>, one: int, t: Tick)
    requires RolledUp(floor, ones, fives) && Ascending(fives)
    requires ones != [] ==> ones[|ones| - 1].start <= one
    requires fives != [] ==> fives[|fives| - 1].start <= floor(one)
    ensures RolledUp(floor, Put(ones, one, t), Put(fives, floor(one), t))
  {
    var ones', fives' := Put(ones, one, t), Put(fives, floor(one), t);
    assert ones' != [] && fives' != [] && fives'[|fives'| - 1].start == floor(one);
    OwnWindow(floor, ones, fives, one, t);
    forall i | 0 <= i < |fives'|
      ensures Window(floor, ones', fives'[i].start) != [] && fives'[i] == Merge(fives'[i].start, Window(floor, ones', fives'[i].start))
    {
      if i < |fives'| - 1 {
        OtherWindows(floor, ones, fives, one, t, i);
      }
    }
    forall i | 0 <= i < |ones'| ensures HasCandle(fives', floor(ones'[i].start)) {
      WindowsHaveCandles(floor, ones, fives, one, t, i);
    }
  }

  /** A trade that comes last falls into the live candle or behind it. */
  lemma {:induction false} SeriesBefore(minutes: nat, before: seq<Tick>, t: Tick)
    requires minutes > 0 && InTime(before + [t])
    ensures var cs := Series(minutes, before);
      InTime(before) && Ascending(cs) && (cs != [] ==> cs[|cs| - 1].start <= Bucket(minutes, t))
  {
    assert forall i | 0 <= i < |before| :: (before + [t])[i] == before[i];
    LiveCandle(minutes, before);
    if before != [] {
      assert (before + [t])[|before| - 1] == before[|before| - 1] && (before + [t])[|before|] == t;
      BucketsGrow(minutes, before[|before| - 1], t);
    }
  }

  lemma {:induction false} TradeRollsUp(ones: seq<Candle>, fives: seq<Candle>, one: int, five: int, t: Tick)
    requires RolledUp(Five, ones, fives) && Ascending(fives) && five == Five(one)
    requires ones != [] ==> ones[|ones| - 1].start <= one
    requires fives != [] ==> fives[|fives| - 1].start <= five
    ensures RolledUp(Five, Put(ones, one, t), Put(fives, five, t))
  {
    PutRollsUp(Five, ones, fives, one, t);
  }

  /** For any trades in time order: every five-minute candle, finished or live, is the merge of
      exactly the one-minute candles of its window, and no one-minute candle is without one. */
  lemma {:induction false} FiveMinutesRollUp(ticks: seq<Tick>)
    requires InTime(ticks)
    ensures RolledUp(Five, Series(1, ticks), Series(5, ticks))
  {
    if ticks != [] {
      var before, t := ticks[..|ticks| - 1], ticks[|ticks| - 1];
      assert ticks == before + [t];
      SeriesBefore(1, before, t);
      SeriesBefore(5, before, t);
      FiveMinutesRollUp(before);
      BucketsNest(t);
      TradeRollsUp(Series(1, before), Series(5, before), Bucket(1, t), Bucket(5, t), t);
    }
  }

  // ---------------------------------------------------------------- the object

  datatype Aggregate = Inactive | Active(current: Candle)

  /** A symbol and an interval in minutes. */
  type Key = (string, nat)

  function Listed(history: map<Key, seq<Candle>>, key: Key): seq<Candle> {
    if key in history then history[key] else []
  }

  function ShownIn(history: map<Key, seq<Candle>>, aggregates: map<Key, Aggregate>, key: Key): seq<Candle> {
    Listed(history, key) + if key in aggregates && aggregates[key].Active? then [aggregates[key].current] else []
  }

  class CandleAggregator {
    var aggregates: map<Key, Aggregate>
    /** Finished candles as handed to the repository, oldest first. */
    var history: map<Key, seq<Candle>>

    constructor ()
      ensures Valid() && forall key :: Shown(key) == []
    {
      aggregates, history := map[], map[];
    }

    /** Only an aggregate that is active has finished candles behind it. */
    ghost predicate Valid()
      reads this
    {
      forall key | key in history :: history[key] != [] ==> key in aggregates && aggregates[key].Active?
    }

    /** Every candle of a symbol and interval, the live one last. */
    function Shown(key: Key): seq<Candle>
      reads this
    {
      ShownIn(history, aggregates, key)
    }

    method UpdateAggregate(key: Key, price: Price, quantity: nat, timestampNs: int)
      requires Valid() && key.1 > 0
      modifies this
      ensures Valid()
      ensures var t := Tick(price, quantity, timestampNs); Shown(key) == Put(old(Shown(key)), Bucket(key.1, t), t)
      ensures forall other | other != key :: ShownIn(history, aggregates, other) == ShownIn(old(history), old(aggregates), other)
    {
      var agg := if key in aggregates then aggregates[key] else Inactive;
      var timestampSec := Quotient(timestampNs, NANOS);
      var bucketStart := Floor(key.1, timestampSec);
      assert bucketStart == Bucket(key.1, Tick(price, quantity, timestampNs));
      if agg.Inactive? || bucketStart > agg.current.start {
        if agg.Active? {
          history := history[key := Listed(history, key) + [agg.current]];
        }
        aggregates := aggregates[key := Active(Candle(bucketStart, price, price, price, price, quantity))];
      } else {
        var c := agg.current;
        c := c.(high := Max(c.high, price), low := Min(c.low, price), close := price, volume := c.volume + quantity);
        aggregates := aggregates[key := Active(c)];
      }
    }

    /** One trade updates the one-minute and the five-minute candle of its symbol. */
    method OnTrade(symbol: string, price: Price, quantity: nat, timestampNs: int)
      requires Valid()
      modifies this
      ensures Valid()
      ensures var t := Tick(price, quantity, timestampNs);
        && Shown((symbol, 1)) == Put(old(Shown((symbol, 1))), Bucket(1, t), t)
        && Shown((symbol, 5)) == Put(old(Shown((symbol, 5))), Bucket(5, t), t)
      ensures forall key | key != (symbol, 1) && key != (symbol, 5) ::
        ShownIn(history, aggregates, key) == ShownIn(old(history), old(aggregates), key)
    {
      UpdateAggregate((symbol, 1), price, quantity, timestampNs);
      UpdateAggregate((symbol, 5), price, quantity, timestampNs);
    }
  }
}
