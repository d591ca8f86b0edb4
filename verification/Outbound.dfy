/** Building outbound FIX messages, and the framer reading them back. */
module Outbound {
  import opened Text
  import opened Framing

  // ---------------------------------------------------------------- the builder

  /** The characters are bytes. */
  predicate Bytes(s: string) {
    forall i | 0 <= i < |s| :: s[i] as int < 256
  }

  predicate Ascii(s: string) {
    forall i | 0 <= i < |s| :: s[i] as int < 128
  }

  /** A byte as the signed `char` the builder adds up. */
  function Signed(c: char): int {
    if c as int < 128 then c as int else c as int - 256
  }

  function SignedSum(s: string): int {
    if s == "" then 0 else SignedSum(s[..|s| - 1]) + Signed(s[|s| - 1])
  }

  /** The source's `%`: the remainder takes the sign of the dividend. */
  function Remainder(a: int, b: nat): (r: int)
    requires b > 0
    ensures -(b as int) < r < b
  {
    if a >= 0 then a % (b as int) else -((-a) % b)
  }

  function Head(payload: string): string {
    Before(Decimal(|payload|), payload)
  }

  function CheckText(head: string): string {
    PadLeft(3, Numeral(Remainder(SignedSum(head), 256)))
  }

  function Wrap(payload: string): string {
    Head(payload) + "10=" + CheckText(Head(payload)) + [SOH]
  }

  // ---------------------------------------------------------------- the two sums

  function HighBytes(s: string): nat {
    if s == "" then 0 else HighBytes(s[..|s| - 1]) + if s[|s| - 1] as int < 128 then 0 else 1
  }

  lemma {:induction false} SumsDifferByHighBytes(s: string)
    ensures ByteSum(s) == SignedSum(s) + 256 * HighBytes(s)
  {
    if s != "" {
      SumsDifferByHighBytes(s[..|s| - 1]);
    }
  }

  /** The sum the builder prints as a checksum is the framer's exactly when it is printed
      without a sign. */
  predicate Unsigned(head: string) {
    SignedSum(head) >= 0 || SignedSum(head) % 256 == 0
  }

  lemma {:induction false} AddsMultiple(a: int, k: int)
    ensures (a + 256 * k) % 256 == a % 256
  {
    var q, r := a / 256, a % 256;
    assert a + 256 * k == 256 * (q + k) + r;
    RemainderIs(a + 256 * k, q + k, r);
  }

  lemma {:induction false} RemainderIs(b: int, q: int, r: nat)
    requires b == 256 * q + r && r < 256
    ensures b % 256 == r
  {
  }

  lemma {:induction false} MinusKeepsZero(a: int)
    ensures (-a) % 256 == 0 <==> a % 256 == 0
  {
    var q, r := a / 256, a % 256;
    if r == 0 {
      RemainderIs(-a, -q, 0);
    } else {
      RemainderIs(-a, -q - 1, 256 - r);
    }
  }

  lemma {:induction false} SameRemainder(a: int, b: nat, k: nat)
    requires b == a + 256 * k
    ensures a >= 0 || a % 256 == 0 ==> Remainder(a, 256) == b % 256
    ensures a < 0 && a % 256 != 0 ==> Remainder(a, 256) < 0
  {
    AddsMultiple(a, k);
    MinusKeepsZero(a);
  }

  lemma {:induction false} ShortNumeral(n: nat)
    requires n < 1000
    ensures |Decimal(n)| <= 3
  {
    DecimalWidth(n);
    DecimalWidth(n / 10);
    DecimalWidth(n / 100);
    assert n / 10 / 10 == n / 100;
  }

  lemma {:induction false} UnsignedCheck(head: string)
    requires Bytes(head) && Unsigned(head)
    ensures var t := CheckText(head); |t| == 3 && AllDigits(t) && Dec(t) == ByteSum(head) % 256
  {
    SumsDifferByHighBytes(head);
    SameRemainder(SignedSum(head), ByteSum(head), HighBytes(head));
    var r := ByteSum(head) % 256;
    ShortNumeral(r);
    PadLeftDec(3, Decimal(r));
  }

  /** A negative remainder puts a minus sign among the first three characters. */
  lemma {:induction false} SignedCheck(head: string)
    requires Bytes(head) && !Unsigned(head)
    ensures var t := CheckText(head); |t| >= 3 && !AllDigits(t[..3])
  {
    SumsDifferByHighBytes(head);
    SameRemainder(SignedSum(head), ByteSum(head), HighBytes(head));
    var n := "-" + Decimal(-Remainder(SignedSum(head), 256));
    assert n[0] == '-' && |n| >= 2;
    if |n| >= 3 {
      assert n[..3][0] == '-';
    } else {
      var t := PadLeft(3, n);
      assert t == PadLeft(3, "0" + n) == "0" + n;
      assert t[..3][1] == '-';
    }
  }

  // ---------------------------------------------------------------- the round trip

  lemma {:induction false} GoodCheckIsFramed(payload: string, rest: string)
    requires Bytes(Head(payload)) && Unsigned(Head(payload)) && |Head(payload)| <= SIZE_MAX
    ensures WellFormed(Wrap(payload))
    ensures Extract(Wrap(payload) + rest) == Complete(|Wrap(payload)|, Wrap(payload))
  {
    var check := CheckText(Head(payload));
    UnsignedCheck(Head(payload));
    assert Wrap(payload) == Framed(Decimal(|payload|), payload, check);
    assert ValidParts(Decimal(|payload|), payload, check);
    FramedIsComplete(Decimal(|payload|), payload, check, rest);
  }

  /** A buffer that starts with a header and body, whatever stands where the checksum is
      due. */
  lemma {:induction false} ReadsUpToCheck(buffer: string, digits: string, body: string)
    requires digits != "" && AllDigits(digits) && Dec(digits) == |body| <= SIZE_MAX
    requires |Before(digits, body)| <= |buffer| && buffer[..|Before(digits, body)|] == Before(digits, body)
    ensures Extract(buffer) == ExtractBody(buffer, 13 + |digits|, |body|)
  {
    var head, n := Before(digits, body), |digits|;
    BeforeShape(digits, body);
    assert buffer[..9] == head[..9] && buffer[9] == head[9] && buffer[10..12] == head[10..12];
    assert buffer[12..12 + n] == head[12..12 + n] && buffer[12 + n] == head[12 + n];
    DelimiterBehindBegin(buffer);
    DelimiterBehindDigits(buffer, digits, 12);
    assert buffer[..2] == buffer[..9][..2];
    assert Substr(buffer, 10, 2) == "9=";
  }

  lemma {:induction false} CheckPosition(head: string, check: string, rest: string)
    requires |check| >= 3
    ensures var buffer := head + "10=" + check + [SOH] + rest;
      && |head| + 7 <= |buffer| && buffer[..|head|] == head
      && Substr(buffer, |head|, 3) == "10=" && Substr(buffer, |head| + 3, 3) == check[..3]
  {
  }

  lemma {:induction false} BadCheckIsRefused(digits: string, body: string, check: string, rest: string)
    requires digits != "" && AllDigits(digits) && Dec(digits) == |body| && |Before(digits, body)| <= SIZE_MAX
    requires |check| >= 3 && !AllDigits(check[..3])
    ensures Extract(Before(digits, body) + "10=" + check + [SOH] + rest) == Malformed(BadChecksumField)
  {
    var head := Before(digits, body);
    assert |head| == 13 + |digits| + |body| by {
      BeforeShape(digits, body);
    }
    CheckPosition(head, check, rest);
    ReadsUpToCheck(head + "10=" + check + [SOH] + rest, digits, body);
  }

  lemma {:induction false} BadCheckIsMalformed(payload: string, rest: string)
    requires Bytes(Head(payload)) && !Unsigned(Head(payload)) && |Head(payload)| <= SIZE_MAX
    ensures Extract(Wrap(payload) + rest) == Malformed(BadChecksumField)
  {
    SignedCheck(Head(payload));
    BadCheckIsRefused(Decimal(|payload|), payload, CheckText(Head(payload)), rest);
  }

  /** What the builder wraps, the framer takes out again, with any bytes behind it, for any
      payload whatever: exactly when the signed sum of header and payload is not negative or
      is a multiple of 256. Otherwise the frame is refused as malformed. */
  lemma {:induction false} BuiltFramesAreRead(payload: string, rest: string)
    requires Bytes(payload) && |Head(payload)| <= SIZE_MAX
    ensures if SignedSum(Head(payload)) >= 0 || SignedSum(Head(payload)) % 256 == 0
            then Extract(Wrap(payload) + rest) == Complete(|Wrap(payload)|, Wrap(payload))
            else Extract(Wrap(payload) + rest) == Malformed(BadChecksumField)
  {
    HeadIsBytes(payload);
    if Unsigned(Head(payload)) {
      GoodCheckIsFramed(payload, rest);
    } else {
      BadCheckIsMalformed(payload, rest);
    }
  }

  lemma {:induction false} HeadIsBytes(payload: string)
    ensures Bytes(payload) ==> Bytes(Head(payload))
    ensures Ascii(payload) ==> Ascii(Head(payload))
  {
    var digits := Decimal(|payload|);
    var prefix := BEGIN_STRING + [SOH] + "9=";
    assert Head(payload) == prefix + (digits + ([SOH] + payload));
    assert Ascii(prefix);
    forall i | 0 <= i < |Head(payload)|
      ensures Bytes(payload) ==> Head(payload)[i] as int < 256
      ensures Ascii(payload) ==> Head(payload)[i] as int < 128
    {
      var n := |prefix|;
      if n <= i < n + |digits| {
        assert IsDigit(digits[i - n]);
      }
    }
  }

  lemma {:induction false} AsciiSumIsPositive(s: string)
    requires Ascii(s)
    ensures SignedSum(s) >= 0
  {
    if s != "" {
      AsciiSumIsPositive(s[..|s| - 1]);
    }
  }

  /** In particular every ASCII payload survives, embedded delimiters and "10=" included. */
  lemma {:induction false} AsciiFramesAreRead(payload: string, rest: string)
    requires Ascii(payload) && |Head(payload)| <= SIZE_MAX
    ensures Extract(Wrap(payload) + rest) == Complete(|Wrap(payload)|, Wrap(payload))
    ensures WellFormed(Wrap(payload))
  {
    HeadIsBytes(payload);
    AsciiSumIsPositive(Head(payload));
    GoodCheckIsFramed(payload, rest);
  }

  // ---------------------------------------------------------------- a payload that is refused

  lemma {:induction false} SignedSumConcat(a: string, b: string)
    ensures SignedSum(a + b) == SignedSum(a) + SignedSum(b)
  {
    if b == "" {
      assert a + b == a;
    } else {
      assert (a + b)[..|a + b| - 1] == a + b[..|b| - 1];
      SignedSumConcat(a, b[..|b| - 1]);
    }
  }

  lemma {:induction false} SignedSumOf(n: nat, c: char)
    ensures SignedSum(seq(n, _ => c)) == n * Signed(c)
  {
    if n > 0 {
      assert seq(n, _ => c)[..n - 1] == seq(n - 1, _ => c);
      SignedSumOf(n - 1, c);
    }
  }

  lemma {:induction false} TwoMore(s: string, a: char, b: char)
    ensures SignedSum(s + [a, b]) == SignedSum(s) + Signed(a) + Signed(b)
  {
    assert (s + [a, b])[..|s| + 1] == s + [a] && (s + [a])[..|s|] == s;
  }

  /** The sum of everything in front of a body of six bytes. */
  lemma {:induction false} OpeningSum()
    ensures SignedSum(Before("6", "")) == 718
  {
    TwoMore("", '8', '=');
    assert "" + ['8', '='] == "8=" && "8=" + ['F', 'I'] == "8=FI" && "8=FI" + ['X', '.'] == "8=FIX.";
    assert "8=FIX." + ['4', '.'] == "8=FIX.4.";
    TwoMore("8=", 'F', 'I');
    TwoMore("8=FI", 'X', '.');
    TwoMore("8=FIX.", '4', '.');
    TwoMore("8=FIX.4.", '4', SOH);
    var begin := BEGIN_STRING + [SOH];
    assert begin == "8=FIX.4." + ['4', SOH];
    TwoMore(begin, '9', '=');
    TwoMore(begin + "9=", '6', SOH);
    assert begin + ['9', '='] == begin + "9=";
    assert Before("6", "") == begin + "9=" + ['6', SOH];
  }

  /** Six bytes above 127 are enough for a message that the framer refuses. */
  lemma {:induction false} HighBytesAreRefused() returns (payload: string)
    ensures payload == seq(6, _ => '\U{0080}') && Bytes(payload)
    ensures SignedSum(Head(payload)) == -50
    ensures Extract(Wrap(payload)) == Malformed(BadChecksumField)
  {
    payload := seq(6, _ => '\U{0080}');
    assert Decimal(6) == "6";
    assert Head(payload) == Before("6", "") + payload;
    SignedSumOf(6, '\U{0080}');
    OpeningSum();
    SignedSumConcat(Before("6", ""), payload);
    BuiltFramesAreRead(payload, "");
    assert Wrap(payload) + "" == Wrap(payload);
  }
}
