/** The string operations the Go code relies on: splitting and joining on a
    separator, trimming, searching, and decimal numerals. */
module Text {

  datatype Option<+T> = None | Some(value: T)

  // ---------------------------------------------------------------- split and join

  function Split(s: string, sep: char): (parts: seq<string>)
    ensures |parts| >= 1
  {
    if s == "" then [""]
    else Extend(s[0], sep, Split(s[1..], sep))
  }

  /** The parts of c followed by a text whose parts are `rest`. */
  function Extend(c: char, sep: char, rest: seq<string>): (parts: seq<string>)
    requires |rest| >= 1
    ensures |parts| >= 1
  {
    if c == sep then [""] + rest else [[c] + rest[0]] + rest[1..]
  }

  lemma ExtendConcat(c: char, sep: char, a: seq<string>, b: seq<string>)
    requires |a| >= 1
    ensures Extend(c, sep, a + b) == Extend(c, sep, a) + b
  {
    assert (a + b)[1..] == a[1..] + b;
  }

  function Join(parts: seq<string>, sep: string): string {
    if |parts| == 0 then ""
    else if |parts| == 1 then parts[0]
    else parts[0] + sep + Join(parts[1..], sep)
  }

  ghost predicate Free(parts: seq<string>, sep: char) {
    forall k | 0 <= k < |parts| :: sep !in parts[k]
  }

  lemma {:induction false} SplitFree(s: string, sep: char)
    ensures Free(Split(s, sep), sep)
  {
    if s != "" {
      SplitFree(s[1..], sep);
    }
  }

  /** A separator between two texts splits them independently. */
  lemma {:induction false} SplitConcat(a: string, sep: char, b: string)
    ensures Split(a + [sep] + b, sep) == Split(a, sep) + Split(b, sep)
  {
    if a == "" {
      assert (a + [sep] + b)[1..] == b;
    } else {
      var whole := a + [sep] + b;
      assert whole[0] == a[0] && whole[1..] == a[1..] + [sep] + b;
      SplitConcat(a[1..], sep, b);
      ExtendConcat(a[0], sep, Split(a[1..], sep), Split(b, sep));
    }
  }

  lemma {:induction false} SplitWhole(a: string, sep: char)
    requires sep !in a
    ensures Split(a, sep) == [a]
  {
    if a != "" {
      SplitWhole(a[1..], sep);
      assert a == [a[0]] + a[1..];
    }
  }

  lemma {:induction false} SplitOfJoin(parts: seq<string>, sep: char)
    requires |parts| >= 1 && Free(parts, sep)
    ensures Split(Join(parts, [sep]), sep) == parts
  {
    SplitWhole(parts[0], sep);
    if |parts| > 1 {
      SplitOfJoin(parts[1..], sep);
      SplitConcat(parts[0], sep, Join(parts[1..], [sep]));
    }
  }

  lemma {:induction false} JoinOfSplit(s: string, sep: char)
    ensures Join(Split(s, sep), [sep]) == s
  {
    if s != "" {
      JoinOfSplit(s[1..], sep);
      var rest := Split(s[1..], sep);
      if s[0] == sep {
        assert ([""] + rest)[1..] == rest;
      } else {
        assert ([[s[0]] + rest[0]] + rest[1..])[1..] == rest[1..];
      }
    }
  }

  lemma {:induction false} JoinConcat(a: seq<string>, b: seq<string>, sep: string)
    requires |a| >= 1 && |b| >= 1
    ensures Join(a + b, sep) == Join(a, sep) + sep + Join(b, sep)
  {
    if |a| == 1 {
      assert (a + b)[1..] == b;
    } else {
      JoinConcat(a[1..], b, sep);
      assert (a + b)[1..] == a[1..] + b;
    }
  }

  // ---------------------------------------------------------------- trimming

  /** Unicode's White_Space characters, as strings.TrimSpace takes them. */
  predicate IsSpace(c: char) {
    var n := c as int;
    || 0x09 <= n <= 0x0D || n == 0x20 || n == 0x85 || n == 0xA0 || n == 0x1680
    || 0x2000 <= n <= 0x200A || n == 0x2028 || n == 0x2029 || n == 0x202F || n == 0x205F || n == 0x3000
  }

  function LeadingSpaces(s: string): (k: nat)
    ensures k <= |s| && forall j | 0 <= j < k :: IsSpace(s[j])
    ensures k < |s| ==> !IsSpace(s[k])
  {
    if s != "" && IsSpace(s[0]) then 1 + LeadingSpaces(s[1..]) else 0
  }

  /** The length that is left once trailing spaces are cut. */
  function TrimmedLength(s: string): (k: nat)
    ensures k <= |s| && forall j | k <= j < |s| :: IsSpace(s[j])
    ensures k > 0 ==> !IsSpace(s[k - 1])
  {
    if s != "" && IsSpace(s[|s| - 1]) then TrimmedLength(s[..|s| - 1]) else |s|
  }

  function TrimLeft(s: string): string {
    s[LeadingSpaces(s)..]
  }

  function TrimRight(s: string): string {
    s[..TrimmedLength(s)]
  }

  function TrimSpace(s: string): string {
    TrimRight(TrimLeft(s))
  }

  // ---------------------------------------------------------------- searching

  /** pat occurs in s at position i. */
  predicate At(s: string, pat: string, i: int) {
    0 <= i && i + |pat| <= |s| && s[i..i + |pat|] == pat
  }

  predicate Contains(s: string, pat: string) {
    exists i | 0 <= i <= |s| :: At(s, pat, i)
  }

  /** strings.LastIndex, with None for "not found". */
  function LastIndex(s: string, pat: string): (r: Option<nat>)
    ensures r.Some? ==> At(s, pat, r.value) && forall j | r.value < j <= |s| :: !At(s, pat, j)
    ensures r.None? ==> !Contains(s, pat)
  {
    LastIndexFrom(s, pat, |s|)
  }

  function LastIndexFrom(s: string, pat: string, i: nat): (r: Option<nat>)
    requires i <= |s|
    requires forall j | i < j <= |s| :: !At(s, pat, j)
    ensures r.Some? ==> At(s, pat, r.value) && forall j | r.value < j <= |s| :: !At(s, pat, j)
    ensures r.None? ==> !Contains(s, pat)
  {
    if At(s, pat, i) then Some(i) else if i == 0 then None else LastIndexFrom(s, pat, i - 1)
  }

  predicate HasPrefix(s: string, p: string) {
    p <= s
  }

  predicate HasSuffix(s: string, p: string) {
    |p| <= |s| && s[|s| - |p|..] == p
  }

  // ---------------------------------------------------------------- decimal numerals

  predicate IsDigit(c: char) { '0' <= c <= '9' }

  predicate AllDigits(s: string) {
    forall i | 0 <= i < |s| :: IsDigit(s[i])
  }

  /** The decimal digits of n, as %d prints them. */
  function Digits(n: nat): (s: string)
    ensures s != "" && AllDigits(s)
  {
    if n < 10 then [(n + '0' as int) as char] else Digits(n / 10) + [(n % 10 + '0' as int) as char]
  }

  function Decimal(n: int): string {
    if n < 0 then "-" + Digits(-n) else Digits(n)
  }

  /** The number a digit string denotes. */
  function Value(s: string): nat
    requires AllDigits(s)
  {
    if s == "" then 0 else Value(s[..|s| - 1]) * 10 + (s[|s| - 1] as int - '0' as int)
  }

  lemma {:induction false} ValueOfDigits(n: nat)
    ensures Value(Digits(n)) == n
  {
    if n >= 10 {
      ValueOfDigits(n / 10);
      assert Digits(n)[..|Digits(n)| - 1] == Digits(n / 10);
    }
  }

  lemma DecimalInjective(m: int, n: int)
    requires Decimal(m) == Decimal(n)
    ensures m == n
  {
    forall k | k in [m, n] ensures Decimal(k)[0] == '-' <==> k < 0 {
      var d := Digits(if k < 0 then -k else k);
      assert IsDigit(d[0]);
    }
    if m >= 0 {
      ValueOfDigits(m);
      ValueOfDigits(n);
    } else {
      assert Decimal(m)[1..] == Digits(-m) && Decimal(n)[1..] == Digits(-n);
      ValueOfDigits(-m);
      ValueOfDigits(-n);
    }
  }

  const TWO63: int := 0x8000_0000_0000_0000

  /** x is an int64. */
  predicate Fits(x: int) { -TWO63 <= x < TWO63 }

  /** strconv.ParseInt(s, 10, 64). */
  function ParseInt64(s: string): Option<int> {
    var negative := s != "" && s[0] == '-';
    var digits := if s != "" && s[0] in {'-', '+'} then s[1..] else s;
    if digits == "" || !AllDigits(digits) then None
    else
      var m: int := Value(digits);
      var v := if negative then -m else m;
      if Fits(v) then Some(v) else None
  }
}
