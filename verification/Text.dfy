/** Text as the FIX code reads it: searching, cutting out and decimal numerals. */
module Text {
  datatype Option<T> = None | Some(value: T)

  const SOH := '\U{0001}'

  const SIZE_MAX: nat := 0xFFFF_FFFF_FFFF_FFFF
  const WORD: nat := 0x1_0000_0000

  // ---------------------------------------------------------------- searching

  /** The first position of c at or behind `from`, or |s| when there is none. */
  function IndexOf(s: string, c: char, from: nat): (i: nat)
    requires from <= |s|
    ensures from <= i <= |s|
    ensures forall k | from <= k < i :: s[k] != c
    ensures i < |s| ==> s[i] == c
    decreases |s| - from
  {
    if from == |s| || s[from] == c then from else IndexOf(s, c, from + 1)
  }

  /** The text at a position, cut off at the end of the buffer. */
  function Substr(s: string, from: nat, n: nat): string
    requires from <= |s|
  {
    if from + n <= |s| then s[from..from + n] else s[from..]
  }

  lemma {:induction false} IndexOfLonger(s: string, t: string, c: char, from: nat)
    requires from <= |s| && IndexOf(s, c, from) < |s|
    ensures IndexOf(s + t, c, from) == IndexOf(s, c, from)
  {
    assert forall k | from <= k <= IndexOf(s, c, from) :: (s + t)[k] == s[k];
  }

  /** pat stands at position i. */
  predicate OccursAt(s: string, pat: string, i: nat) {
    i + |pat| <= |s| && s[i..i + |pat|] == pat
  }

  lemma {:induction false} OccursChars(s: string, pat: string, i: nat)
    requires OccursAt(s, pat, i)
    ensures forall k | i <= k < i + |pat| :: s[k] == pat[k - i]
  {
    assert forall k | i <= k < i + |pat| :: s[k] == s[i..i + |pat|][k - i];
  }

  /** The first position of a text at or behind `from`, or |s| when there is none. */
  function Find(s: string, pat: string, from: nat): (i: nat)
    requires from <= |s| && pat != ""
    ensures from <= i <= |s|
    ensures forall k | from <= k < i :: !OccursAt(s, pat, k)
    ensures i < |s| ==> OccursAt(s, pat, i)
    decreases |s| - from
  {
    if from == |s| || OccursAt(s, pat, from) then from else Find(s, pat, from + 1)
  }

  lemma {:induction false} OccursInTail(s: string, pat: string, from: nat, i: nat)
    requires from <= |s|
    ensures OccursAt(s[from..], pat, i) <==> OccursAt(s, pat, from + i)
  {
    if from + i + |pat| <= |s| {
      assert s[from..][i..i + |pat|] == s[from + i..from + i + |pat|];
    }
  }

  /** A search that starts later finds what a search of the tail finds. */
  lemma {:induction false} FindTail(s: string, pat: string, from: nat)
    requires from <= |s| && pat != ""
    ensures Find(s, pat, from) == from + Find(s[from..], pat, 0)
  {
    var i, j := Find(s, pat, from), Find(s[from..], pat, 0);
    OccursInTail(s, pat, from, i - from);
    OccursInTail(s, pat, from, j);
  }

  /** A search passes over a text in which the pattern never begins. */
  lemma {:induction false} FindSkips(a: string, b: string, pat: string)
    requires pat != "" && forall i | 0 <= i < |a| :: !OccursAt(a + b, pat, i)
    ensures Find(a + b, pat, 0) == |a| + Find(b, pat, 0)
  {
    var i := Find(a + b, pat, 0);
    assert (a + b)[|a|..] == b;
    FindTail(a + b, pat, |a|);
    var j := Find(a + b, pat, |a|);
    assert i >= |a|;
    assert i == j;
  }

  // ---------------------------------------------------------------- decimal numerals

  predicate IsDigit(c: char) {
    '0' <= c <= '9'
  }

  predicate AllDigits(s: string) {
    forall i | 0 <= i < |s| :: IsDigit(s[i])
  }

  /** The value of a decimal numeral. */
  function Dec(s: string): nat
    requires AllDigits(s)
  {
    if s == "" then 0 else Dec(s[..|s| - 1]) * 10 + (s[|s| - 1] as int - '0' as int)
  }

  lemma {:induction false} OneMoreDigit(s: string)
    requires AllDigits(s) && s != ""
    ensures Dec(s) <= Dec(s[..|s| - 1]) * 10 + 9
  {
    assert IsDigit(s[|s| - 1]);
  }

  lemma {:induction false} ThreeDigits(s: string)
    requires AllDigits(s) && |s| == 3
    ensures Dec(s) <= 999
  {
    var two, one := s[..2], s[..1];
    assert two[..1] == one && one[..0] == "" && Dec("") == 0;
    OneMoreDigit(one);
    OneMoreDigit(two);
    OneMoreDigit(s);
  }

  /** The shortest numeral of a number. */
  function Decimal(n: nat): (s: string)
    ensures s != "" && AllDigits(s) && Dec(s) == n
  {
    if n < 10 then [Digit(n)] else
      var s := Decimal(n / 10);
      assert (s + [Digit(n % 10)])[..|s|] == s;
      s + [Digit(n % 10)]
  }

  function Digit(d: nat): (c: char)
    requires d < 10
    ensures IsDigit(c) && c as int == '0' as int + d
  {
    (d + '0' as int) as char
  }

  lemma {:induction false} DecimalWidth(n: nat)
    ensures |Decimal(n)| == if n < 10 then 1 else 1 + |Decimal(n / 10)|
  {
  }

  /** Digits in front weigh as much as the length of what follows them. */
  lemma {:induction false} DecLeadingZero(s: string)
    requires AllDigits(s)
    ensures AllDigits("0" + s) && Dec("0" + s) == Dec(s)
  {
    var t := "0" + s;
    if s == "" {
      assert t[..0] == "";
    } else {
      DecLeadingZero(s[..|s| - 1]);
      assert t[..|t| - 1] == "0" + s[..|s| - 1];
    }
  }

  /** `setw(width)` with fill character '0'. */
  function PadLeft(width: nat, s: string): (t: string)
    ensures |t| == if |s| >= width then |s| else width
    decreases width - |s|
  {
    if |s| >= width then s else PadLeft(width, "0" + s)
  }

  lemma {:induction false} PadLeftDec(width: nat, s: string)
    requires AllDigits(s)
    ensures AllDigits(PadLeft(width, s)) && Dec(PadLeft(width, s)) == Dec(s)
    decreases width - |s|
  {
    if |s| < width {
      DecLeadingZero(s);
      PadLeftDec(width, "0" + s);
    }
  }

  /** A signed number as a stream prints it. */
  function Numeral(i: int): string {
    if i < 0 then "-" + Decimal(-i) else Decimal(i)
  }
}
