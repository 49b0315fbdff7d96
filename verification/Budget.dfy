/** Usage totals, the --budget ceiling and its one breach report
    (cmd/rysh/run_result.go, cmd/rysh/run_cmd.go). Counters are int64. */
module Budget {
  import opened Text

  const TWO64: int := 0x1_0000_0000_0000_0000

  /** Two's-complement wrap-around into int64. */
  function Wrap(x: int): int {
    (x + TWO63) % TWO64 - TWO63
  }

  lemma WrapAdd(a: int, b: int)
    ensures Wrap(Wrap(a) + b) == Wrap(a + b)
    ensures Fits(Wrap(a)) && (Fits(a) ==> Wrap(a) == a)
  {
    var k := (a + TWO63) / TWO64;
    assert Wrap(a) == a - k * TWO64;
    var x := a + b + TWO63;
    assert x - k * TWO64 == Wrap(a) + b + TWO63;
    ModShift(x, k);
  }

  lemma ModShift(x: int, k: int)
    ensures (x - k * TWO64) % TWO64 == x % TWO64
  {
    var q := x / TWO64;
    assert x - k * TWO64 == (q - k) * TWO64 + x % TWO64;
  }

  datatype Usage = Usage(inTokens: int, outTokens: int, cacheRead: int, cacheWrite: int, costMicroUsd: int)
  {
    predicate NonNegative() {
      inTokens >= 0 && outTokens >= 0 && cacheRead >= 0 && cacheWrite >= 0 && costMicroUsd >= 0
    }
  }

  /** A ceiling in tokens or micro-dollars; zero is none. */
  datatype Ceiling = Ceiling(tokens: int, microUsd: int)
  {
    predicate IsSet() { tokens > 0 || microUsd > 0 }
  }

  // ---------------------------------------------------------------- totals of a record stream

  datatype Field = Tokens | Cost | In | Out | Read | Write

  function Get(f: Field, r: Usage): int {
    match f
    case Tokens => r.inTokens + r.outTokens + r.cacheRead + r.cacheWrite
    case Cost => r.costMicroUsd
    case In => r.inTokens
    case Out => r.outTokens
    case Read => r.cacheRead
    case Write => r.cacheWrite
  }

  function Sum(f: Field, records: seq<Usage>): int {
    if records == [] then 0 else Sum(f, records[..|records| - 1]) + Get(f, records[|records| - 1])
  }

  /** The int64 counter after these records. */
  function Total(f: Field, records: seq<Usage>): int { Wrap(Sum(f, records)) }

  /** int64 addition. */
  function Plus(a: int, b: int): int { Wrap(a + b) }

  lemma {:induction false} TokensSplit(records: seq<Usage>)
    ensures Sum(Tokens, records) == Sum(In, records) + Sum(Out, records) + Sum(Read, records) + Sum(Write, records)
  {
    if records != [] {
      TokensSplit(records[..|records| - 1]);
    }
  }

  lemma {:induction false} SumWithout(f: Field, records: seq<Usage>, i: nat)
    requires i < |records|
    ensures Sum(f, records) == Sum(f, records[..i] + records[i + 1..]) + Get(f, records[i])
  {
    var others := records[..i] + records[i + 1..];
    var n := |records| - 1;
    if i == n {
      assert others == records[..n];
    } else {
      SumWithout(f, records[..n], i);
      assert records[..n][..i] + records[..n][i + 1..] == others[..n - 1];
      assert others[n - 1] == records[n];
    }
  }

  lemma Without(b: seq<Usage>, i: nat)
    requires i < |b|
    ensures multiset(b[..i] + b[i + 1..]) == multiset(b) - multiset{b[i]}
  {
    assert b == b[..i] + [b[i]] + b[i + 1..];
  }

  lemma DropSame(a: seq<Usage>, b: seq<Usage>) returns (i: nat)
    requires multiset(a) == multiset(b) && a != []
    ensures i < |b| && b[i] == a[|a| - 1]
    ensures multiset(a[..|a| - 1]) == multiset(b[..i] + b[i + 1..])
  {
    var n := |a| - 1;
    assert a[n] in multiset(b);
    i :| 0 <= i < |b| && b[i] == a[n];
    Without(b, i);
    assert a == a[..n] + [a[n]];
  }

  /** Arrival order does not matter to a total. */
  lemma {:induction false} SumAnyOrder(f: Field, a: seq<Usage>, b: seq<Usage>)
    requires multiset(a) == multiset(b)
    ensures Sum(f, a) == Sum(f, b)
    decreases |a|
  {
    assert |multiset(a)| == |a| && |multiset(b)| == |b|;
    if a != [] {
      var i := DropSame(a, b);
      SumAnyOrder(f, a[..|a| - 1], b[..i] + b[i + 1..]);
      SumWithout(f, b, i);
    }
  }

  // ---------------------------------------------------------------- the breach

  predicate Over(c: Ceiling, records: seq<Usage>) {
    || (c.tokens > 0 && Wrap(Sum(Tokens, records)) > c.tokens)
    || (c.microUsd > 0 && Wrap(Sum(Cost, records)) > c.microUsd)
  }

  /** Some arrival so far has left the total over the ceiling. */
  ghost predicate Breached(c: Ceiling, records: seq<Usage>) {
    exists n | 0 < n <= |records| :: Over(c, records[..n])
  }

  /** The n-th arrival reports the breach: it is the first to leave the total over. */
  ghost predicate Reports(c: Ceiling, records: seq<Usage>, n: nat) {
    0 < n <= |records| && Over(c, records[..n]) && forall j | 0 < j < n :: !Over(c, records[..j])
  }

  lemma ReportsInPrefix(c: Ceiling, records: seq<Usage>, n: nat)
    requires n <= |records|
    ensures Reports(c, records[..n], n) <==> Reports(c, records, n)
  {
    forall j | 0 <= j <= n ensures records[..n][..j] == records[..j] {
    }
  }

  ghost predicate Sane(records: seq<Usage>) {
    && (forall i | 0 <= i < |records| :: records[i].NonNegative())
    && Fits(Sum(Tokens, records)) && Fits(Sum(Cost, records))
  }

  lemma {:induction false} PrefixSums(f: Field, records: seq<Usage>, k: nat)
    requires k <= |records| && forall i | 0 <= i < |records| :: records[i].NonNegative()
    ensures 0 <= Sum(f, records[..k]) <= Sum(f, records)
    decreases |records|, k
  {
    var n := |records| - 1;
    if k < |records| {
      PrefixSums(f, records[..n], k);
      assert records[..n][..k] == records[..k];
    } else if records != [] {
      PrefixSums(f, records, n);
      assert records[..k] == records;
    }
  }

  /** For non-negative records whose totals fit int64: exactly one record
      reports if the final total is over the ceiling, and none otherwise. */
  lemma ReportIffFinallyOver(c: Ceiling, records: seq<Usage>)
    requires Sane(records)
    ensures (exists n :: Reports(c, records, n)) <==> Over(c, records)
    ensures forall m, n :: Reports(c, records, m) && Reports(c, records, n) ==> m == n
  {
    if Over(c, records) {
      var n := 1;
      assert records[..|records|] == records && records != [];
      while !Over(c, records[..n])
        invariant 0 < n <= |records| && forall j | 0 < j < n :: !Over(c, records[..j])
        decreases |records| - n
      {
        n := n + 1;
      }
      assert Reports(c, records, n);
    }
    forall n: nat | n <= |records| && Over(c, records[..n]) ensures Over(c, records) {
      PrefixSums(Tokens, records, n);
      PrefixSums(Cost, records, n);
      WrapFits(Sum(Tokens, records[..n]));
      WrapFits(Sum(Cost, records[..n]));
      WrapFits(Sum(Tokens, records));
      WrapFits(Sum(Cost, records));
    }
  }

  lemma WrapFits(x: int)
    ensures Fits(x) <==> Wrap(x) == x
    ensures Fits(Wrap(x)) && (x - Wrap(x)) % TWO64 == 0
  {
    assert x - Wrap(x) == (x + TWO63) / TWO64 * TWO64;
  }

  /** Totals and verdict are the same for every arrival order. */
  lemma VerdictAnyOrder(c: Ceiling, a: seq<Usage>, b: seq<Usage>)
    requires multiset(a) == multiset(b)
    ensures Sum(Tokens, a) == Sum(Tokens, b) && Sum(Cost, a) == Sum(Cost, b)
    ensures Sane(a) ==> ((exists n :: Reports(c, a, n)) <==> (exists n :: Reports(c, b, n)))
  {
    SumAnyOrder(Tokens, a, b);
    SumAnyOrder(Cost, a, b);
    if Sane(a) {
      forall i | 0 <= i < |b| ensures b[i].NonNegative() {
        assert b[i] in multiset(a);
      }
      ReportIffFinallyOver(c, a);
      ReportIffFinallyOver(c, b);
    }
  }

  // ---------------------------------------------------------------- the collector

  class Collector {
    const ceiling: Ceiling
    var breached: bool
    var tokens: int
    var costMicroUsd: int
    var inTokens: int
    var outTokens: int
    var cacheRead: int
    var cacheWrite: int
    ghost var arrived: seq<Usage>

    ghost predicate Totalled()
      reads this
    {
      && tokens == Total(Tokens, arrived) && costMicroUsd == Total(Cost, arrived)
      && inTokens == Total(In, arrived) && outTokens == Total(Out, arrived)
      && cacheRead == Total(Read, arrived) && cacheWrite == Total(Write, arrived)
    }

    ghost predicate Valid()
      reads this
    {
      Totalled() && (breached <==> Breached(ceiling, arrived))
    }

    constructor (ceiling: Ceiling)
      ensures Valid() && arrived == [] && this.ceiling == ceiling
    {
      this.ceiling := ceiling;
      breached, tokens, costMicroUsd, inTokens, outTokens, cacheRead, cacheWrite := false, 0, 0, 0, 0, 0, 0;
      arrived := [];
    }

    /** Adds one record to the totals. */
    method Add(r: Usage)
      requires Valid()
      modifies this
      ensures arrived == old(arrived) + [r] && breached == old(breached) && Totalled()
      ensures tokens == Plus(old(tokens), r.inTokens + r.outTokens + r.cacheRead + r.cacheWrite)
      ensures costMicroUsd == Plus(old(costMicroUsd), r.costMicroUsd)
      ensures inTokens == Plus(old(inTokens), r.inTokens) && outTokens == Plus(old(outTokens), r.outTokens)
      ensures cacheRead == Plus(old(cacheRead), r.cacheRead) && cacheWrite == Plus(old(cacheWrite), r.cacheWrite)
    {
      Fold(Tokens, arrived, r);
      Fold(Cost, arrived, r);
      Fold(In, arrived, r);
      Fold(Out, arrived, r);
      Fold(Read, arrived, r);
      Fold(Write, arrived, r);
      arrived := arrived + [r];
      tokens := Plus(tokens, r.inTokens + r.outTokens + r.cacheRead + r.cacheWrite);
      costMicroUsd := Plus(costMicroUsd, r.costMicroUsd);
      inTokens := Plus(inTokens, r.inTokens);
      outTokens := Plus(outTokens, r.outTokens);
      cacheRead := Plus(cacheRead, r.cacheRead);
      cacheWrite := Plus(cacheWrite, r.cacheWrite);
    }

    /** Folds one record in and reports whether it is the one that crossed. */
    method OnUsage(r: Usage) returns (breachedNow: bool)
      requires Valid()
      modifies this
      ensures Valid() && arrived == old(arrived) + [r]
      ensures breachedNow <==> Reports(ceiling, arrived, |arrived|)
      ensures var over := || (ceiling.tokens > 0 && tokens > ceiling.tokens)
                          || (ceiling.microUsd > 0 && costMicroUsd > ceiling.microUsd);
              breachedNow <==> !old(breached) && over
      ensures breached == (old(breached) || breachedNow)
    {
      BreachedNext(ceiling, arrived, r);
      Add(r);
      if breached || !ceiling.IsSet() {
        return false;
      }
      var over := (ceiling.tokens > 0 && tokens > ceiling.tokens)
                  || (ceiling.microUsd > 0 && costMicroUsd > ceiling.microUsd);
      if !over {
        return false;
      }
      breached := true;
      return true;
    }
  }

  /** The token total is in + out + cache-read + cache-write, in int64
      arithmetic, for any records at all. */
  lemma TotalIsTheSplit(c: Collector)
    requires c.Valid()
    ensures c.tokens == Wrap(c.inTokens + c.outTokens + c.cacheRead + c.cacheWrite)
  {
    SplitTotal(c.arrived);
  }

  lemma Fold(f: Field, before: seq<Usage>, r: Usage)
    ensures Total(f, before + [r]) == Plus(Total(f, before), Get(f, r))
  {
    assert (before + [r])[..|before|] == before;
    WrapAdd(Sum(f, before), Get(f, r));
  }

  lemma BreachedNext(c: Ceiling, before: seq<Usage>, r: Usage)
    ensures Breached(c, before + [r]) <==> Breached(c, before) || Over(c, before + [r])
    ensures Reports(c, before + [r], |before| + 1) <==> !Breached(c, before) && Over(c, before + [r])
  {
    var all := before + [r];
    assert all[..|all|] == all;
    forall k | 0 < k <= |before| ensures all[..k] == before[..k] {
    }
    if Breached(c, before) {
      var k :| 0 < k <= |before| && Over(c, before[..k]);
      assert Over(c, all[..k]);
    }
  }

  lemma SplitTotal(records: seq<Usage>)
    ensures Wrap(Sum(Tokens, records))
         == Wrap(Wrap(Sum(In, records)) + Wrap(Sum(Out, records))
                 + Wrap(Sum(Read, records)) + Wrap(Sum(Write, records)))
  {
    TokensSplit(records);
    var a, b, c, d := Sum(In, records), Sum(Out, records), Sum(Read, records), Sum(Write, records);
    WrapAdd(a, Wrap(b) + Wrap(c) + Wrap(d));
    WrapAdd(b, a + Wrap(c) + Wrap(d));
    WrapAdd(c, a + b + Wrap(d));
    WrapAdd(d, a + b + c);
  }

  // ---------------------------------------------------------------- --budget

  /** One character of strings.ToLower; of the letters that matter to a budget,
      only K has a second upper-case form, the Kelvin sign. */
  function Lower(c: char): char {
    if 'A' <= c <= 'Z' then (c as int - 'A' as int + 'a' as int) as char else if c == '\U{212A}' then 'k' else c
  }

  function ToLower(s: string): string {
    seq(|s|, i requires 0 <= i < |s| => Lower(s[i]))
  }

  datatype Unit = One | Kilo | Mega
  {
    function Letter(): string { match this case One => "" case Kilo => "k" case Mega => "m" }
    function Written(upper: bool): string {
      match this case One => "" case Kilo => if upper then "K" else "k" case Mega => if upper then "M" else "m"
    }
    function Factor(): int { match this case One => 1 case Kilo => 1_000 case Mega => 1_000_000 }
  }

  /** The budget value as the parser reads it: blanks trimmed, lower-cased. */
  function Normal(arg: string): string { ToLower(TrimSpace(arg)) }

  predicate IsDollars(s: string) { HasPrefix(s, "$") || HasSuffix(s, "usd") }

  function UnitOf(s: string): Unit {
    if HasSuffix(s, "k") then Kilo else if HasSuffix(s, "m") then Mega else One
  }

  /** The token ceiling a non-dollar value yields; None is a refusal. */
  function TokenCeiling(s: string): Option<int> {
    var unit := UnitOf(s);
    match ParseInt64(if unit.One? then s else s[..|s| - 1])
    case None => None
    case Some(v) => if v <= 0 then None else Some(Wrap(v * unit.Factor()))
  }

  /** What follows the dollar sign or precedes "usd". */
  function DollarNumber(s: string): string {
    var t := if HasPrefix(s, "$") then s[1..] else s;
    if HasSuffix(t, "usd") then TrimSpace(t[..|t| - 3]) else t
  }

  /** int64(f) for f >= 0: truncation, and the smallest int64 when out of range
      (Go leaves that to the machine; this is what amd64 yields). */
  function ToInt64(f: real): int
    requires f >= 0.0
  {
    if Fits(f.Floor) then f.Floor else -TWO63
  }

  function DollarCeiling(v: Option<real>): Option<Ceiling> {
    if v.None? || v.value <= 0.0 then None else Some(Ceiling(0, ToInt64(v.value * 1000000.0)))
  }

  /** parseFloat stands for strconv.ParseFloat on finite numbers. */
  method ParseBudget(arg: string, parseFloat: string -> Option<real>) returns (c: Option<Ceiling>)
    ensures c == BudgetOf(Normal(arg), parseFloat)
  {
    var s := ToLower(TrimSpace(arg));
    if s == "" {
      return None;
    }
    c := ParseNormal(s, parseFloat);
  }

  function BudgetOf(s: string, parseFloat: string -> Option<real>): Option<Ceiling> {
    if s == "" then None
    else if IsDollars(s) then DollarCeiling(parseFloat(DollarNumber(s)))
    else if TokenCeiling(s).None? then None
    else Some(Ceiling(TokenCeiling(s).value, 0))
  }

  method ParseNormal(arg: string, parseFloat: string -> Option<real>) returns (c: Option<Ceiling>)
    requires arg != ""
    ensures c == BudgetOf(arg, parseFloat)
  {
    var s, usd := arg, false;
    if HasPrefix(s, "$") {
      usd := true;
      s := s[1..];
    }
    if HasSuffix(s, "usd") {
      SuffixAfterDollar(arg);
      usd := true;
      s := TrimSpace(s[..|s| - 3]);
    }
    if usd {
      var v := parseFloat(s);
      if v.None? || v.value <= 0.0 {
        return None;
      }
      return Some(Ceiling(0, ToInt64(v.value * 1000000.0)));
    }
    var tokens := ParseTokens(s);
    return if tokens.None? then None else Some(Ceiling(tokens.value, 0));
  }

  method ParseTokens(arg: string) returns (t: Option<int>)
    ensures t == TokenCeiling(arg)
  {
    var s, mult := arg, 1;
    if HasSuffix(s, "k") {
      mult, s := 1_000, s[..|s| - 1];
    } else if HasSuffix(s, "m") {
      mult, s := 1_000_000, s[..|s| - 1];
    }
    var n := ParseInt64(s);
    if n.None? || n.value <= 0 {
      return None;
    }
    return Some(Wrap(n.value * mult));
  }

  lemma SuffixAfterDollar(s: string)
    ensures HasPrefix(s, "$") && HasSuffix(s[1..], "usd") ==> IsDollars(s)
  {}

  lemma LastOfSuffix(s: string, p: string)
    requires p != ""
    ensures HasSuffix(s, p) ==> s[|s| - 1] == p[|p| - 1]
  {}

  /** Neither the dollar spelling, nor another letter. */
  lemma PrintedParts(d: string, unit: Unit)
    requires d != "" && d[0] != '$' && IsDigit(d[|d| - 1])
    ensures var s := d + unit.Letter();
            !IsDollars(s) && UnitOf(s) == unit && d == if unit.One? then s else s[..|s| - 1]
  {
    var s := d + unit.Letter();
    assert s[0] == d[0];
    assert "usd"[2] == 'd';
    LastOfSuffix(s, "usd");
    LastOfSuffix(s, "k");
    LastOfSuffix(s, "m");
    match unit
    case One => assert s == d;
    case Kilo => assert s[|s| - 1..] == "k" && s[..|s| - 1] == d;
    case Mega => assert s[|s| - 1..] == "m" && s[..|s| - 1] == d;
  }

  ghost predicate AllSpaces(s: string) {
    forall i | 0 <= i < |s| :: IsSpace(s[i])
  }

  lemma {:induction false} TrimAround(left: string, s: string, right: string)
    requires AllSpaces(left) && AllSpaces(right) && s != "" && !IsSpace(s[0]) && !IsSpace(s[|s| - 1])
    ensures TrimSpace(left + s + right) == s
  {
    var all := left + s + right;
    var rest := s + right;
    assert all[|left|] == s[0] && forall i | 0 <= i < |left| :: all[i] == left[i];
    assert LeadingSpaces(all) == |left| && all[|left|..] == rest;
    assert rest[|s| - 1] == s[|s| - 1] && forall i | |s| <= i < |rest| :: rest[i] == right[i - |s|];
    assert TrimmedLength(rest) == |s| && rest[..|s|] == s;
  }

  lemma LowerConcat(a: string, b: string)
    ensures ToLower(a + b) == ToLower(a) + ToLower(b)
  {}

  lemma LowerOfNumeral(n: int)
    ensures var d := Decimal(n);
            ToLower(d) == d && d != "" && d[0] != '$' && !IsSpace(d[0]) && IsDigit(d[|d| - 1])
  {
    var d := Digits(if n < 0 then -n else n);
    assert forall i | 0 <= i < |d| :: IsDigit(d[i]) && Lower(d[i]) == d[i];
    assert n < 0 ==> Decimal(n)[1..] == d;
  }

  lemma LowerOfLetter(unit: Unit, upper: bool)
    ensures var w := unit.Written(upper); ToLower(w) == unit.Letter() && (w != "" ==> !IsSpace(w[|w| - 1]))
  {}

  /** A count with its letter in either case, blanks around it, is read as printed. */
  lemma PrintedIsNormal(left: string, n: int, unit: Unit, upper: bool, right: string)
    requires AllSpaces(left) && AllSpaces(right)
    ensures Normal(left + (Decimal(n) + unit.Written(upper)) + right) == Decimal(n) + unit.Letter()
  {
    var d, w := Decimal(n), unit.Written(upper);
    LowerOfNumeral(n);
    LowerOfLetter(unit, upper);
    LowerConcat(d, w);
    assert (d + w)[0] == d[0];
    TrimAround(left, d + w, right);
  }

  lemma NumeralParses(n: int)
    requires Fits(n)
    ensures ParseInt64(Decimal(n)) == Some(n)
  {
    var m := if n < 0 then -n else n;
    var d := Digits(m);
    ValueOfDigits(m);
    assert IsDigit(d[0]);
    assert n < 0 ==> Decimal(n)[1..] == d;
  }

  lemma PrintedParses(n: int, unit: Unit)
    requires Fits(n)
    ensures var s := Decimal(n) + unit.Letter();
            && s != "" && !IsDollars(s)
            && TokenCeiling(s) == if n > 0 then Some(Wrap(n * unit.Factor())) else None
  {
    LowerOfNumeral(n);
    PrintedParts(Decimal(n), unit);
    NumeralParses(n);
  }

  lemma PrintedBudget(left: string, n: int, unit: Unit, upper: bool, right: string, parseFloat: string -> Option<real>)
    requires Fits(n) && AllSpaces(left) && AllSpaces(right)
    ensures BudgetOf(Normal(left + (Decimal(n) + unit.Written(upper)) + right), parseFloat)
         == if n > 0 then Some(Ceiling(Wrap(n * unit.Factor()), 0)) else None
  {
    PrintedIsNormal(left, n, unit, upper, right);
    PrintedParses(n, unit);
  }

  /** Every positive int64 count, bare, in thousands with a "k" or in millions with
      an "m", in either case and with blanks around, is accepted; it becomes exactly
      that many tokens, a ceiling that is set, when the product fits int64, and
      another number when it does not. A count that is not positive is refused. */
  lemma CeilingFaithfulIffFits(left: string, n: int, letter: string, right: string, parseFloat: string -> Option<real>)
    requires Fits(n) && letter in ["", "k", "K", "m", "M"] && AllSpaces(left) && AllSpaces(right)
    ensures var c := BudgetOf(Normal(left + (Decimal(n) + letter) + right), parseFloat);
            var tokens := n * (if letter == "" then 1 else if letter == "k" || letter == "K" then 1_000 else 1_000_000);
            && (c.Some? <==> n > 0)
            && (n > 0 ==> (c == Some(Ceiling(tokens, 0)) <==> tokens < TWO63) && (tokens < TWO63 ==> c.value.IsSet()))
  {
    var unit := if letter == "" then One else if letter == "k" || letter == "K" then Kilo else Mega;
    var upper := letter == "K" || letter == "M";
    PrintedBudget(left, n, unit, upper, right, parseFloat);
    WrapFits(n * unit.Factor());
  }

  lemma DollarSign(num: string)
    requires !HasSuffix(num, "usd")
    ensures IsDollars("$" + num) && DollarNumber("$" + num) == num
  {
    var s := "$" + num;
    assert s[1..] == num && HasPrefix(s, "$");
  }

  lemma UsdBehind(num: string)
    requires num != "" && num[0] != '$'
    ensures IsDollars(num + "usd") && DollarNumber(num + "usd") == TrimSpace(num)
  {
    var s := num + "usd";
    assert s[|s| - 3..] == "usd" && s[..|s| - 3] == num && s[0] == num[0];
    assert !HasPrefix(s, "$");
  }

  /** A dollar amount, "$" before or "usd" behind it, is accepted exactly when it is
      a positive number; it sets a ceiling if and only if it is at least a millionth
      of a dollar and its millionths fit int64, and then as many of those. */
  lemma DollarsEnforcedIff(s: string, num: string, parseFloat: string -> Option<real>)
    requires || (s == "$" + num && !HasSuffix(num, "usd"))
             || (s == num + "usd" && num != "" && num[0] != '$' && TrimSpace(num) == num)
    ensures var c, v := BudgetOf(s, parseFloat), parseFloat(num);
            && (c.Some? <==> v.Some? && v.value > 0.0)
            && (c.Some? ==>
                  && (c.value.IsSet() <==> v.value >= 0.000001 && (v.value * 1000000.0).Floor < TWO63)
                  && (c.value.IsSet() ==> c.value == Ceiling(0, (v.value * 1000000.0).Floor)))
  {
    if s == num + "usd" && num != "" && num[0] != '$' {
      UsdBehind(num);
    } else {
      DollarSign(num);
    }
  }

  /** Ten million million dollars set no ceiling. */
  lemma DollarsOverflow(parseFloat: string -> Option<real>)
    requires parseFloat("10000000000000") == Some(10000000000000.0)
    ensures BudgetOf("$10000000000000", parseFloat) == Some(Ceiling(0, -TWO63))
    ensures !Ceiling(0, -TWO63).IsSet()
  {
    var s := "$10000000000000";
    assert s[0] == '$' && s[1..] == "10000000000000";
    LastOfSuffix(s[1..], "usd");
    assert "usd"[2] == 'd' && s[1..][13] == '0';
    assert DollarNumber(s) == "10000000000000";
    assert (10000000000000.0 * 1000000.0) as real == 10000000000000000000.0;
  }

  /** The largest int64 in thousands wraps to -1000, which is no ceiling at all. */
  lemma OverflowDisablesBudget(n: int, parseFloat: string -> Option<real>)
    requires n == TWO63 - 1
    ensures BudgetOf(Normal(Decimal(n) + "k"), parseFloat) == Some(Ceiling(-1000, 0))
    ensures !Ceiling(-1000, 0).IsSet()
  {
    PrintedBudget("", n, Kilo, false, "", parseFloat);
    Unpadded(Decimal(n) + Kilo.Written(false));
    LargestInThousands();
  }

  lemma Unpadded(s: string)
    ensures "" + s + "" == s
  {}

  lemma LargestInThousands()
    ensures Kilo.Written(false) == "k" && Wrap((TWO63 - 1) * Kilo.Factor()) == -1000
  {}
}
