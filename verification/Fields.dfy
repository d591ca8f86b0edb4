/** Tag=value fields: printing them, splitting them into a map, and searching for a tag by
    its text. */
module Fields {
  import opened Sequences
  import opened Text

  const INT_MAX: nat := 0x7FFF_FFFF

  datatype Field = Field(tag: nat, value: string)

  /** The text that introduces a field, such as "35=". */
  function Mark(tag: nat): string {
    Decimal(tag) + "="
  }

  function PrintField(f: Field): string {
    Mark(f.tag) + f.value + [SOH]
  }

  function Print(fs: seq<Field>): string {
    if fs == [] then "" else PrintField(fs[0]) + Print(fs[1..])
  }

  lemma {:induction false} PrintConcat(a: seq<Field>, b: seq<Field>)
    ensures Print(a + b) == Print(a) + Print(b)
  {
    if a == [] {
      assert a + b == b;
    } else {
      assert (a + b)[1..] == a[1..] + b;
      PrintConcat(a[1..], b);
    }
  }

  // ---------------------------------------------------------------- reading numbers

  /** How many digits a text starts with. */
  function DigitRun(s: string): (n: nat)
    ensures n <= |s| && AllDigits(s[..n]) && (n < |s| ==> !IsDigit(s[n]))
  {
    if s == "" || !IsDigit(s[0]) then 0 else
      var n := DigitRun(s[1..]);
      assert forall i | 0 < i < n + 1 :: s[i] == s[1..][..n][i - 1];
      n + 1
  }

  /** White space. */
  predicate Blank(c: char) {
    c == ' ' || '\t' <= c <= '\r'
  }

  function SkipBlanks(s: string): string {
    if s != "" && Blank(s[0]) then SkipBlanks(s[1..]) else s
  }

  /** Whether a text starts with a minus sign, and what follows the sign it may start with. */
  function Unsign(s: string): (bool, string) {
    if s != "" && (s[0] == '-' || s[0] == '+') then (s[0] == '-', s[1..]) else (false, s)
  }

  /** The sign and the size of the number a text starts with, behind blanks. */
  function ReadNumeral(s: string): Option<(bool, nat)> {
    var (negative, t) := Unsign(SkipBlanks(s));
    var n := DigitRun(t);
    if n == 0 then None else Some((negative, Dec(t[..n])))
  }

  /** A signed 32-bit number; one that is out of range is an error. */
  function ReadInt(s: string): Option<int> {
    match ReadNumeral(s)
    case None => None
    case Some((negative, m)) =>
      var n := (if negative then -1 else 1) * m;
      if n > INT_MAX || n + INT_MAX + 1 < 0 then None else Some(n)
  }

  /** An unsigned 64-bit number; a minus sign wraps around. */
  function ReadSize(s: string): Option<nat> {
    match ReadNumeral(s)
    case None => None
    case Some((negative, m)) =>
      if m > SIZE_MAX then None else Some(if negative && m > 0 then SIZE_MAX + 1 - m else m)
  }

  lemma {:induction false} WholeRun(s: string)
    requires AllDigits(s)
    ensures DigitRun(s) == |s|
  {
  }

  /** A text that starts with a digit has neither blanks nor a sign in front. */
  lemma {:induction false} PlainNumeral(s: string)
    requires s != "" && IsDigit(s[0])
    ensures Unsign(SkipBlanks(s)) == (false, s)
    ensures ReadNumeral(s) == Some((false, Dec(s[..DigitRun(s)])))
  {
  }

  lemma {:induction false} ReadsDecimal(n: nat)
    ensures ReadInt(Decimal(n)) == if n <= INT_MAX then Some(n) else None
    ensures ReadSize(Decimal(n)) == if n <= SIZE_MAX then Some(n) else None
  {
    WholeRun(Decimal(n));
    PlainNumeral(Decimal(n));
    assert Decimal(n)[..|Decimal(n)|] == Decimal(n);
  }

  // ---------------------------------------------------------------- splitting

  /** Files one token; text without '=' is skipped, a tag that is not a number is an error. */
  function Enter(token: string, found: map<int, string>): Option<map<int, string>> {
    var eq := IndexOf(token, '=', 0);
    if eq == |token| then Some(found)
    else
      var tag := ReadInt(token[..eq]);
      if tag.None? then None else Some(found[tag.value := token[eq + 1..]])
  }

  /** The delimited pieces from position start on; text behind the last delimiter is no piece. */
  function Tokens(s: string, start: nat): seq<string>
    requires start <= |s|
    decreases |s| - start
  {
    var end := IndexOf(s, SOH, start);
    if end == |s| then [] else [s[start..end]] + Tokens(s, end + 1)
  }

  /** Later fields overwrite earlier ones. */
  function EnterAll(tokens: seq<string>, found: map<int, string>): Option<map<int, string>> {
    if tokens == [] then Some(found)
    else
      var entered := Enter(tokens[0], found);
      if entered.None? then None else EnterAll(tokens[1..], entered.value)
  }

  function Split(s: string): Option<map<int, string>> {
    EnterAll(Tokens(s, 0), map[])
  }

  /** One turn of the splitting loop. */
  lemma {:induction false} EntersNext(s: string, start: nat, end: nat, found: map<int, string>, entered: Option<map<int, string>>)
    requires start <= |s| && end == IndexOf(s, SOH, start) < |s| && entered == Enter(s[start..end], found)
    ensures EnterAll(Tokens(s, start), found) == if entered.None? then None else EnterAll(Tokens(s, end + 1), entered.value)
  {
    var rest := Tokens(s, end + 1);
    assert Tokens(s, start) == [s[start..end]] + rest && ([s[start..end]] + rest)[1..] == rest;
  }

  method EnterToken(token: string, found: map<int, string>) returns (ok: bool, found': map<int, string>)
    ensures Enter(token, found) == if ok then Some(found') else None
  {
    ok, found' := true, found;
    var eq := IndexOf(token, '=', 0);
    if eq != |token| {
      var tag := ReadInt(token[..eq]);
      if tag.None? {
        return false, found;
      }
      found' := found[tag.value := token[eq + 1..]];
    }
  }

  /** Files the token between two positions. */
  method EnterNext(s: string, start: nat, end: nat, found: map<int, string>) returns (ok: bool, found': map<int, string>)
    requires start <= |s| && end == IndexOf(s, SOH, start) < |s|
    ensures EnterAll(Tokens(s, start), found) == if ok then EnterAll(Tokens(s, end + 1), found') else None
  {
    EntersNext(s, start, end, found, Enter(s[start..end], found));
    ok, found' := EnterToken(s[start..end], found);
  }

  method SplitToMap(s: string) returns (ok: bool, found: map<int, string>)
    ensures Split(s) == if ok then Some(found) else None
  {
    ok, found := true, map[];
    ghost var whole := Split(s);
    var start := 0;
    var end := IndexOf(s, SOH, 0);
    while end != |s|
      invariant start <= |s| && end == IndexOf(s, SOH, start)
      invariant EnterAll(Tokens(s, start), found) == whole
      decreases |s| - start
    {
      ok, found := EnterNext(s, start, end, found);
      if !ok {
        return;
      }
      start := end + 1;
      end := IndexOf(s, SOH, start);
    }
    assert Tokens(s, start) == [];
    ok := true;
  }

  /** The printed form of fields whose values hold no delimiter. */
  predicate Clean(fs: seq<Field>) {
    forall i | 0 <= i < |fs| :: fs[i].tag <= INT_MAX && SOH !in fs[i].value
  }

  /** The last value given for each tag. */
  function Collect(fs: seq<Field>, found: map<int, string>): map<int, string> {
    if fs == [] then found else Collect(fs[1..], found[fs[0].tag := fs[0].value])
  }

  lemma {:induction false} MarkChars(tag: nat)
    ensures var n := |Decimal(tag)|;
      && |Mark(tag)| == n + 1 && Mark(tag)[n] == '=' && Mark(tag)[..n] == Decimal(tag)
      && forall k | 0 <= k < n :: Mark(tag)[k] != '=' && Mark(tag)[k] != SOH
  {
    forall k | 0 <= k < |Decimal(tag)| ensures Mark(tag)[k] != '=' && Mark(tag)[k] != SOH {
      assert Mark(tag)[k] == Decimal(tag)[k] && IsDigit(Decimal(tag)[k]);
    }
  }

  lemma {:induction false} EntersField(f: Field, found: map<int, string>)
    requires f.tag <= INT_MAX
    ensures Enter(Mark(f.tag) + f.value, found) == Some(found[f.tag := f.value])
  {
    var token, d := Mark(f.tag) + f.value, |Decimal(f.tag)|;
    MarkChars(f.tag);
    assert forall k | 0 <= k <= d :: token[k] == Mark(f.tag)[k];
    assert IndexOf(token, '=', 0) == d && token[..d] == Decimal(f.tag) && token[d + 1..] == f.value;
    ReadsDecimal(f.tag);
  }

  function Token(f: Field): string {
    Mark(f.tag) + f.value
  }

  function TokensOf(fs: seq<Field>): seq<string> {
    if fs == [] then [] else [Token(fs[0])] + TokensOf(fs[1..])
  }

  /** Only what follows a position matters to the pieces behind it. */
  lemma {:induction false} IndexOfShift(a: string, s: string, c: char, start: nat)
    requires start <= |s|
    ensures IndexOf(a + s, c, |a| + start) == |a| + IndexOf(s, c, start)
    decreases |s| - start
  {
    if start < |s| {
      assert (a + s)[|a| + start] == s[start];
      IndexOfShift(a, s, c, start + 1);
    }
  }

  lemma {:induction false} SliceShift(a: string, s: string, start: nat, end: nat)
    requires start <= end <= |s|
    ensures (a + s)[|a| + start..|a| + end] == s[start..end]
  {
  }

  lemma {:induction false} TokensShift(a: string, s: string, start: nat)
    requires start <= |s|
    ensures Tokens(a + s, |a| + start) == Tokens(s, start)
    decreases |s| - start
  {
    var end := IndexOf(s, SOH, start);
    IndexOfShift(a, s, SOH, start);
    if end < |s| {
      SliceShift(a, s, start, end);
      TokensShift(a, s, end + 1);
    }
  }

  lemma {:induction false} FirstDelimiter(token: string, rest: string)
    requires SOH !in token
    ensures IndexOf(token + [SOH] + rest, SOH, 0) == |token| && (token + [SOH] + rest)[..|token|] == token
  {
    var s, n := token + [SOH] + rest, |token|;
    assert s[n] == SOH && forall k | 0 <= k < n :: s[k] == token[k] && token[k] in token;
  }

  lemma {:induction false} TokensStep(token: string, rest: string)
    requires SOH !in token
    ensures Tokens(token + [SOH] + rest, 0) == [token] + Tokens(rest, 0)
  {
    var s, n := token + [SOH] + rest, |token|;
    FirstDelimiter(token, rest);
    assert s[0..n] == s[..n];
    TokensShift(token + [SOH], rest, 0);
  }

  lemma {:induction false} TokensField(f: Field, rest: string)
    requires SOH !in f.value
    ensures Tokens(PrintField(f) + rest, 0) == [Token(f)] + Tokens(rest, 0)
  {
    assert SOH !in Token(f) by {
      MarkChars(f.tag);
    }
    assert PrintField(f) + rest == Token(f) + [SOH] + rest;
    TokensStep(Token(f), rest);
  }

  lemma {:induction false} TokensPrint(fs: seq<Field>, rest: string)
    requires Clean(fs)
    ensures Tokens(Print(fs) + rest, 0) == TokensOf(fs) + Tokens(rest, 0)
  {
    if fs == [] {
      assert Print(fs) + rest == rest;
    } else {
      var f, tail := fs[0], Print(fs[1..]) + rest;
      assert Print(fs) + rest == PrintField(f) + tail;
      TokensField(f, tail);
      TokensPrint(fs[1..], rest);
      Associate([Token(f)], TokensOf(fs[1..]), Tokens(rest, 0));
    }
  }

  lemma {:induction false} EntersFirst(f: Field, rest: seq<string>, found: map<int, string>)
    requires f.tag <= INT_MAX
    ensures EnterAll([Token(f)] + rest, found) == EnterAll(rest, found[f.tag := f.value])
  {
    EntersField(f, found);
    assert ([Token(f)] + rest)[1..] == rest;
  }

  lemma {:induction false} EnterPrinted(fs: seq<Field>, rest: seq<string>, found: map<int, string>)
    requires Clean(fs)
    ensures EnterAll(TokensOf(fs) + rest, found) == EnterAll(rest, Collect(fs, found))
  {
    if fs == [] {
      assert TokensOf(fs) + rest == rest;
    } else {
      Associate([Token(fs[0])], TokensOf(fs[1..]), rest);
      EntersFirst(fs[0], TokensOf(fs[1..]) + rest, found);
      EnterPrinted(fs[1..], rest, found[fs[0].tag := fs[0].value]);
    }
  }

  /** Splitting undoes printing, up to repeated tags and whatever follows the last field. */
  lemma {:induction false} SplitPrint(fs: seq<Field>, rest: string)
    requires Clean(fs) && SOH !in rest
    ensures Split(Print(fs) + rest) == Some(Collect(fs, map[]))
  {
    assert Tokens(rest, 0) == [] by {
      assert forall k | 0 <= k < |rest| :: rest[k] in rest;
    }
    TokensPrint(fs, rest);
    EnterPrinted(fs, [], map[]);
  }

  // ---------------------------------------------------------------- searching for a tag

  /** The numeral of the first tag does not end in that of the second. */
  predicate OtherEnd(tag: nat, end: nat) {
    tag % 10 != end % 10 || tag < end || (end >= 10 && tag % 100 != end % 100)
  }

  /** Neither the field's own tag nor its value holds the text of the tag searched for. */
  predicate Passes(f: Field, tag: nat) {
    && SOH !in f.value
    && (forall i | 0 <= i < |f.value| :: !OccursAt(f.value, Mark(tag), i))
    && OtherEnd(f.tag, tag)
  }

  /** A numeral that ends another is no larger and has the same last digits. */
  lemma {:induction false} EndsOf(a: nat, b: nat)
    requires |Decimal(b)| <= |Decimal(a)| && Decimal(a)[|Decimal(a)| - |Decimal(b)|..] == Decimal(b)
    ensures !OtherEnd(a, b)
  {
    LastDigits(a, b);
    if b >= 10 {
      ShorterEnds(a, b);
      LastDigits(a / 10, b / 10);
      TwoDigits(a);
      TwoDigits(b);
    }
  }

  lemma {:induction false} TwoDigits(n: nat)
    ensures n % 100 == n / 10 % 10 * 10 + n % 10
  {
    var tens, hundreds := n / 10, n / 10 / 10;
    assert tens == hundreds * 10 + tens % 10;
    RemainderOf(n, hundreds, tens % 10 * 10 + n % 10);
  }

  lemma {:induction false} RemainderOf(n: nat, hundreds: nat, rest: nat)
    requires n == hundreds * 100 + rest && rest < 100
    ensures n % 100 == rest
  {
  }

  lemma {:induction false} ShorterEnds(a: nat, b: nat)
    requires |Decimal(b)| <= |Decimal(a)| && Decimal(a)[|Decimal(a)| - |Decimal(b)|..] == Decimal(b) && b >= 10
    ensures var s, t := Decimal(a / 10), Decimal(b / 10); |t| <= |s| && s[|s| - |t|..] == t
  {
    var s, t, n := Decimal(a), Decimal(b), |Decimal(a)| - |Decimal(b)|;
    assert t == Decimal(b / 10) + [Digit(b % 10)];
    assert s == Decimal(a / 10) + [Digit(a % 10)];
    assert s[n..][..|t| - 1] == Decimal(a / 10)[n..];
  }

  lemma {:induction false} SameEnd<T>(s: seq<T>, t: seq<T>)
    requires t != [] && |t| <= |s| && s[|s| - |t|..] == t
    ensures s[|s| - 1] == t[|t| - 1] && s == s[..|s| - |t|] + t
  {
    assert t[|t| - 1] == s[|s| - |t|..][|t| - 1];
  }

  lemma {:induction false} LastDigits(a: nat, b: nat)
    requires |Decimal(b)| <= |Decimal(a)| && Decimal(a)[|Decimal(a)| - |Decimal(b)|..] == Decimal(b)
    ensures a >= b && a % 10 == b % 10
  {
    var s, t := Decimal(a), Decimal(b);
    SameEnd(s, t);
    LastDigit(a);
    LastDigit(b);
    DecEnds(s[..|s| - |t|], t);
  }

  lemma {:induction false} LastDigit(n: nat)
    ensures Decimal(n)[|Decimal(n)| - 1] == Digit(n % 10)
  {
  }

  lemma {:induction false} DecEnds(u: string, t: string)
    requires AllDigits(u + t) && AllDigits(t)
    ensures Dec(u + t) >= Dec(t)
  {
    if t != "" {
      assert (u + t)[..|u + t| - 1] == u + t[..|t| - 1];
      DecEnds(u, t[..|t| - 1]);
    }
  }

  /** The text of a tag cannot begin inside the field's own tag. */
  lemma {:induction false} NotInMark(f: Field, tag: nat, rest: string, i: nat)
    requires i < |Mark(f.tag)| && OtherEnd(f.tag, tag)
    ensures !OccursAt(PrintField(f) + rest, Mark(tag), i)
  {
    var s, pat := PrintField(f) + rest, Mark(tag);
    var d, n := |Decimal(f.tag)|, |Decimal(tag)|;
    MarkChars(f.tag);
    MarkChars(tag);
    assert s[d] == '=' && forall k | 0 <= k < d :: s[k] == Mark(f.tag)[k];
    if OccursAt(s, pat, i) {
      OccursChars(s, pat, i);
      if i + n == d {
        assert Decimal(f.tag)[i..] == s[i..i + n] == s[i..i + |pat|][..n] == Decimal(tag);
        EndsOf(f.tag, tag);
      }
    }
  }

  lemma {:induction false} SliceOfSlice(s: string, m: nat, n: nat, k: nat, l: nat)
    requires m + n <= |s| && k + l <= n
    ensures s[m..m + n][k..k + l] == s[m + k..m + k + l]
  {
    var a, b := s[m..m + n][k..k + l], s[m + k..m + k + l];
    assert |a| == |b| && forall i | 0 <= i < |a| :: a[i] == s[m..m + n][k + i] == s[m + (k + i)] == b[i];
    assert a == b;
  }

  /** Nor inside its value. */
  lemma {:induction false} InsideValue(s: string, m: nat, value: string, pat: string, k: nat)
    requires m + |value| <= |s| && s[m..m + |value|] == value && k + |pat| <= |value|
    ensures OccursAt(s, pat, m + k) ==> OccursAt(value, pat, k)
  {
    SliceOfSlice(s, m, |value|, k, |pat|);
  }

  /** Nor across its delimiter. */
  lemma {:induction false} AcrossDelimiter(s: string, pat: string, i: nat, delimiter: nat)
    requires i <= delimiter < i + |pat| && delimiter < |s| && s[delimiter] == SOH && SOH !in pat
    ensures !OccursAt(s, pat, i)
  {
    assert pat[delimiter - i] in pat;
    if OccursAt(s, pat, i) {
      OccursChars(s, pat, i);
    }
  }

  lemma {:induction false} MarkIsPlain(tag: nat)
    ensures SOH !in Mark(tag)
  {
    MarkChars(tag);
  }

  lemma {:induction false} NotInValue(f: Field, tag: nat, rest: string, i: nat)
    requires |Mark(f.tag)| <= i < |PrintField(f)| && Passes(f, tag)
    ensures !OccursAt(PrintField(f) + rest, Mark(tag), i)
  {
    var s, m := PrintField(f) + rest, |Mark(f.tag)|;
    assert s[m + |f.value|] == SOH && s[m..m + |f.value|] == f.value;
    if i + |Mark(tag)| <= m + |f.value| {
      InsideValue(s, m, f.value, Mark(tag), i - m);
      assert !OccursAt(f.value, Mark(tag), i - m);
    } else {
      MarkIsPlain(tag);
      AcrossDelimiter(s, Mark(tag), i, m + |f.value|);
    }
  }

  lemma {:induction false} FindPassesField(f: Field, tag: nat, rest: string)
    requires Passes(f, tag)
    ensures Find(PrintField(f) + rest, Mark(tag), 0) == |PrintField(f)| + Find(rest, Mark(tag), 0)
  {
    var s := PrintField(f) + rest;
    forall i | 0 <= i < |PrintField(f)| ensures !OccursAt(s, Mark(tag), i) {
      if i < |Mark(f.tag)| {
        NotInMark(f, tag, rest, i);
      } else {
        NotInValue(f, tag, rest, i);
      }
    }
    FindSkips(PrintField(f), rest, Mark(tag));
  }

  /** A search for a tag passes over fields without its text. */
  lemma {:induction false} FindPasses(fs: seq<Field>, tag: nat, rest: string)
    requires forall i | 0 <= i < |fs| :: Passes(fs[i], tag)
    ensures Find(Print(fs) + rest, Mark(tag), 0) == |Print(fs)| + Find(rest, Mark(tag), 0)
  {
    if fs == [] {
      assert Print(fs) + rest == rest;
    } else {
      assert Print(fs) + rest == PrintField(fs[0]) + (Print(fs[1..]) + rest);
      FindPassesField(fs[0], tag, Print(fs[1..]) + rest);
      FindPasses(fs[1..], tag, rest);
    }
  }
}
