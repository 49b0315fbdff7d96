/** Stamping a manifest with its checksum (cmd/registry-index/main.go). */
module Checksum {
  import opened Text

  const KEY := "checksum:"

  /** A line that stampChecksum takes for the checksum. */
  predicate Holds(line: string) {
    HasPrefix(TrimSpace(line), KEY)
  }

  function Line(sum: string): string { "checksum: " + sum }

  /** The first line the predicate takes; |lines| if there is none. */
  function First(lines: seq<string>, takes: string -> bool): (k: nat)
    ensures k <= |lines| && (k < |lines| ==> takes(lines[k]))
    ensures forall j | 0 <= j < k :: !takes(lines[j])
  {
    if lines == [] || takes(lines[0]) then 0 else 1 + First(lines[1..], takes)
  }

  lemma FirstIs(lines: seq<string>, takes: string -> bool, k: nat)
    requires k < |lines| && takes(lines[k]) && forall j | 0 <= j < k :: !takes(lines[j])
    ensures First(lines, takes) == k
  {}

  /** strings.TrimRight(s, "\n"). */
  function TrimLines(s: string): (t: string)
    ensures t <= s && (t != "" ==> t[|t| - 1] != '\n') && forall j | |t| <= j < |s| :: s[j] == '\n'
  {
    if s != "" && s[|s| - 1] == '\n' then TrimLines(s[..|s| - 1]) else s
  }

  /** `line` in place of the first line taken, or after the text if none is. */
  function Placed(takes: string -> bool, text: string, line: string): string {
    var lines := Split(text, '\n');
    var k := First(lines, takes);
    if k < |lines| then Join(lines[k := line], "\n") else TrimLines(text) + "\n" + line + "\n"
  }

  function Stamp(manifest: string, sum: string): string {
    Placed(Holds, manifest, Line(sum))
  }

  method StampChecksum(manifest: string, sum: string) returns (stamped: string)
    ensures stamped == Stamp(manifest, sum)
  {
    var parts := Split(manifest, '\n');
    var lines := new string[|parts|](i requires 0 <= i < |parts| => parts[i]);
    for i := 0 to lines.Length
      invariant lines[..] == parts
      invariant forall j | 0 <= j < i :: !Holds(parts[j])
    {
      var l := lines[i];
      if HasPrefix(TrimSpace(l), "checksum:") {
        FirstIs(parts, Holds, i);
        lines[i] := "checksum: " + sum;
        return Join(lines[..], "\n");
      }
    }
    var trimmed := TrimLines(manifest);
    return trimmed + "\n" + ("checksum: " + sum) + "\n";
  }

  // ---------------------------------------------------------------- the lines around the stamp

  /** The lines before and after the placed one. */
  function Before(takes: string -> bool, text: string): seq<string> {
    var lines := Split(text, '\n');
    var k := First(lines, takes);
    if k < |lines| then lines[..k] else Split(TrimLines(text), '\n')
  }

  function After(takes: string -> bool, text: string): seq<string> {
    var lines := Split(text, '\n');
    var k := First(lines, takes);
    if k < |lines| then lines[k + 1..] else [""]
  }

  ghost predicate NoneTaken(takes: string -> bool, lines: seq<string>) {
    forall i | 0 <= i < |lines| :: !takes(lines[i])
  }

  /** Trailing line breaks only add empty lines. */
  lemma {:induction false} TrimmedPrefix(text: string)
    ensures Split(TrimLines(text), '\n') <= Split(text, '\n')
  {
    if text != "" && text[|text| - 1] == '\n' {
      var shorter := text[..|text| - 1];
      TrimmedPrefix(shorter);
      assert text == shorter + ['\n'] + "";
      SplitConcat(shorter, '\n', "");
    }
  }

  lemma AroundFree(takes: string -> bool, text: string)
    ensures Free(Before(takes, text), '\n') && Free(After(takes, text), '\n') && NoneTaken(takes, Before(takes, text))
  {
    SplitFree(text, '\n');
    SplitFree(TrimLines(text), '\n');
    TrimmedPrefix(text);
    assert Before(takes, text) <= Split(text, '\n');
  }

  lemma PlacedAround(takes: string -> bool, text: string, line: string)
    ensures Placed(takes, text, line) == Join(Before(takes, text) + [line] + After(takes, text), "\n")
  {
    var lines := Split(text, '\n');
    var k := First(lines, takes);
    if k < |lines| {
      assert lines[k := line] == Before(takes, text) + [line] + After(takes, text);
    } else {
      Appended(TrimLines(text), line);
    }
  }

  lemma Appended(t: string, line: string)
    ensures Join(Split(t, '\n') + [line] + [""], "\n") == t + "\n" + line + "\n"
  {
    JoinConcat(Split(t, '\n') + [line], [""], "\n");
    JoinConcat(Split(t, '\n'), [line], "\n");
    JoinOfSplit(t, '\n');
  }

  lemma LinesAround(takes: string -> bool, before: seq<string>, line: string, after: seq<string>)
    requires Free(before, '\n') && Free(after, '\n') && '\n' !in line && takes(line) && NoneTaken(takes, before)
    ensures Split(Join(before + [line] + after, "\n"), '\n') == before + [line] + after
    ensures First(before + [line] + after, takes) == |before|
  {
    FreeConcat(before, [line]);
    FreeConcat(before + [line], after);
    SplitOfJoin(before + [line] + after, '\n');
    FirstAfter(takes, before, line, after);
  }

  lemma FirstAfter(takes: string -> bool, before: seq<string>, line: string, after: seq<string>)
    requires takes(line) && NoneTaken(takes, before)
    ensures First(before + [line] + after, takes) == |before|
  {
    var lines := before + [line] + after;
    assert forall j | 0 <= j < |before| :: lines[j] == before[j];
    FirstIs(lines, takes, |before|);
  }

  lemma PlacedLines(takes: string -> bool, text: string, line: string)
    requires '\n' !in line && takes(line)
    ensures var before := Before(takes, text);
            var lines := Split(Placed(takes, text, line), '\n');
            lines == before + [line] + After(takes, text) && First(lines, takes) == |before|
  {
    AroundFree(takes, text);
    PlacedAround(takes, text, line);
    LinesAround(takes, Before(takes, text), line, After(takes, text));
  }

  // ---------------------------------------------------------------- placing twice

  lemma Replaced(takes: string -> bool, before: seq<string>, line: string, after: seq<string>, latest: string)
    requires Free(before, '\n') && Free(after, '\n') && '\n' !in line && takes(line) && NoneTaken(takes, before)
    ensures Placed(takes, Join(before + [line] + after, "\n"), latest) == Join(before + [latest] + after, "\n")
  {
    LinesAround(takes, before, line, after);
    SetMiddle(before, line, after, latest);
  }

  lemma SetMiddle(before: seq<string>, line: string, after: seq<string>, latest: string)
    ensures (before + [line] + after)[|before| := latest] == before + [latest] + after
  {}

  lemma JoinInside(before: seq<string>, x: seq<string>, after: seq<string>)
    requires x != []
    ensures Join(before + [Join(x, "\n")] + after, "\n") == Join(before + x + after, "\n")
  {
    var j := [Join(x, "\n")];
    if before == [] {
      assert before + j == j && before + x == x;
    } else {
      JoinConcat(before, j, "\n");
      JoinConcat(before, x, "\n");
    }
    if after == [] {
      assert before + j + after == before + j && before + x + after == before + x;
    } else {
      JoinConcat(before + j, after, "\n");
      JoinConcat(before + x, after, "\n");
    }
  }

  lemma FreeConcat(a: seq<string>, b: seq<string>)
    requires Free(a, '\n') && Free(b, '\n')
    ensures Free(a + b, '\n')
  {}

  lemma Regroup(before: seq<string>, line: string, rest: seq<string>, after: seq<string>)
    ensures before + [line] + (rest + after) == before + ([line] + rest) + after == before + [line] + rest + after
  {}

  lemma ReplacedHead(takes: string -> bool, before: seq<string>, x: seq<string>, after: seq<string>, latest: string)
    requires x != [] && Free(before, '\n') && Free(x, '\n') && Free(after, '\n')
    requires takes(x[0]) && NoneTaken(takes, before)
    ensures Placed(takes, Join(before + x + after, "\n"), latest) == Join(before + [latest] + x[1..] + after, "\n")
  {
    assert Free(x[1..], '\n') && '\n' !in x[0];
    FreeConcat(x[1..], after);
    Replaced(takes, before, x[0], x[1..] + after, latest);
    Regroup(before, x[0], x[1..], after);
    Regroup(before, latest, x[1..], after);
    assert x == [x[0]] + x[1..];
  }

  /** Over a placed text that was several lines, only the first is replaced. */
  lemma PlacedTwice(takes: string -> bool, text: string, first: string, second: string)
    requires takes(Split(first, '\n')[0])
    ensures Placed(takes, Placed(takes, text, first), second)
         == Join(Before(takes, text) + [second] + Split(first, '\n')[1..] + After(takes, text), "\n")
  {
    var x := Split(first, '\n');
    AroundFree(takes, text);
    PlacedAround(takes, text, first);
    SplitFree(first, '\n');
    JoinOfSplit(first, '\n');
    JoinInside(Before(takes, text), x, After(takes, text));
    ReplacedHead(takes, Before(takes, text), x, After(takes, text), second);
  }

  lemma MoreIsLonger(before: seq<string>, line: string, rest: seq<string>, after: seq<string>)
    ensures Join(before + [line] + rest + after, "\n") == Join(before + [line] + after, "\n") <==> rest == []
  {
    if rest == [] {
      assert before + [line] + rest == before + [line];
    } else {
      JoinConcat(before + [line], rest, "\n");
      if after == [] {
        assert before + [line] + rest + after == before + [line] + rest && before + [line] + after == before + [line];
      } else {
        JoinConcat(before + [line] + rest, after, "\n");
        JoinConcat(before + [line], after, "\n");
      }
      assert |Join(before + [line] + rest + after, "\n")| > |Join(before + [line] + after, "\n")|;
    }
  }

  // ---------------------------------------------------------------- what a stamp holds

  lemma StampedLineHolds(sum: string)
    ensures Holds(Line(sum))
  {
    var l := Line(sum);
    assert l[0] == 'c' && l[8] == ':' && KEY[8] == ':';
    var k := TrimmedLength(l);
    assert LeadingSpaces(l) == 0 && TrimLeft(l) == l;
    assert !IsSpace(l[8]);
    assert k >= 9;
    assert TrimSpace(l) == l[..k] && l[..9] == KEY;
  }

  lemma NoBreakInKey()
    ensures '\n' !in Line("")
  {}

  /** The lines of a checksum line whose sum may hold line breaks. */
  lemma BrokenLine(sum: string)
    ensures var x := Split(Line(sum), '\n'); Holds(x[0]) && (|x| == 1 <==> '\n' !in sum)
  {
    var parts := Split(sum, '\n');
    SplitFree(sum, '\n');
    JoinOfSplit(sum, '\n');
    StampedLineHolds(parts[0]);
    NoBreakInKey();
    assert forall s :: Line(s) == Line("") + s;
    if |parts| == 1 {
      SplitWhole(Line(sum), '\n');
    } else {
      var more := Join(parts[1..], "\n");
      assert Line(sum) == Line(parts[0]) + ['\n'] + more;
      SplitConcat(Line(parts[0]), '\n', more);
      SplitWhole(Line(parts[0]), '\n');
    }
  }

  /** The checksum line a reader finds first is the one just stamped. */
  lemma LastStampIsRead(manifest: string, sum: string)
    requires '\n' !in sum
    ensures var lines := Split(Stamp(manifest, sum), '\n');
            exists k: nat ::
              && k < |lines| && lines[k] == "checksum: " + sum
              && forall j | 0 <= j < k :: !("checksum:" <= TrimSpace(lines[j]))
  {
    StampedLineHolds(sum);
    NoBreakInKey();
    assert Line(sum) == Line("") + sum;
    PlacedLines(Holds, manifest, Line(sum));
  }

  /** Stamping over a stamp is as if the first had never been, if and only if the
      first checksum was one line: of a broken one, all but its first line stay. */
  lemma LastStampWinsIffOneLine(manifest: string, a: string, b: string)
    ensures Stamp(Stamp(manifest, a), b) == Stamp(manifest, b) <==> '\n' !in a
  {
    var x := Split(Line(a), '\n');
    BrokenLine(a);
    PlacedTwice(Holds, manifest, Line(a), Line(b));
    PlacedAround(Holds, manifest, Line(b));
    MoreIsLonger(Before(Holds, manifest), Line(b), x[1..], After(Holds, manifest));
  }

  /** The k-th line is the first checksum line; k is the number of lines if there is none. */
  predicate FirstHeld(lines: seq<string>, k: nat) {
    && k <= |lines| && (k < |lines| ==> "checksum:" <= TrimSpace(lines[k]))
    && forall j | 0 <= j < k :: !("checksum:" <= TrimSpace(lines[j]))
  }

  /** Where a checksum line was there to begin with, it is the only line that
      changes; where none was, all lines of the text but empty ones at its end stay. */
  lemma OtherLinesStay(manifest: string, sum: string, k: nat)
    requires '\n' !in sum && FirstHeld(Split(manifest, '\n'), k)
    ensures var before, after := Split(manifest, '\n'), Split(Stamp(manifest, sum), '\n');
            if k < |before| then
              |after| == |before| && after[k] == "checksum: " + sum
              && forall i | 0 <= i < |after| && i != k :: after[i] == before[i]
            else
              |after| >= 2 && after[|after| - 2..] == ["checksum: " + sum, ""] && after[..|after| - 2] <= before
              && forall i | |after| - 2 <= i < |before| :: before[i] == ""
  {
    var before := Split(manifest, '\n');
    if k < |before| {
      FirstIs(before, Holds, k);
    } else {
      assert forall j | 0 <= j < |before| :: !Holds(before[j]);
      assert First(before, Holds) == |before|;
    }
    StampedLineHolds(sum);
    NoBreakInKey();
    assert Line(sum) == Line("") + sum;
    PlacedKeepsOthers(Holds, manifest, Line(sum));
    TrimmedRest(manifest);
  }

  /** What trimming takes off are empty lines. */
  lemma {:induction false} TrimmedRest(text: string)
    ensures forall i | |Split(TrimLines(text), '\n')| <= i < |Split(text, '\n')| :: Split(text, '\n')[i] == ""
  {
    if text != "" && text[|text| - 1] == '\n' {
      var shorter := text[..|text| - 1];
      TrimmedRest(shorter);
      assert text == shorter + ['\n'] + "";
      SplitConcat(shorter, '\n', "");
    }
  }

  lemma PlacedKeepsOthers(takes: string -> bool, text: string, line: string)
    requires '\n' !in line && takes(line)
    ensures var before, after := Split(text, '\n'), Split(Placed(takes, text, line), '\n');
            var k := First(before, takes);
            if k < |before| then
              |after| == |before| && after[k] == line && forall i | 0 <= i < |after| && i != k :: after[i] == before[i]
            else
              |after| >= 2 && after[..|after| - 2] == Split(TrimLines(text), '\n') <= before
              && after[|after| - 2..] == [line, ""]
  {
    PlacedLines(takes, text, line);
    TrimmedPrefix(text);
    PlacedAmong(takes, text, line);
  }

  lemma PlacedAmong(takes: string -> bool, text: string, line: string)
    ensures var lines, after := Split(text, '\n'), Before(takes, text) + [line] + After(takes, text);
            var k := First(lines, takes);
            if k < |lines| then
              |after| == |lines| && after[k] == line && forall i | 0 <= i < |after| && i != k :: after[i] == lines[i]
            else
              |after| >= 2 && after[..|after| - 2] == Split(TrimLines(text), '\n') && after[|after| - 2..] == [line, ""]
  {
    var lines := Split(text, '\n');
    var k := First(lines, takes);
    if k < |lines| {
      OneReplaced(lines, k, line);
    } else {
      TwoAdded(Split(TrimLines(text), '\n'), line);
    }
  }

  lemma OneReplaced(lines: seq<string>, k: nat, line: string)
    requires k < |lines|
    ensures var changed := lines[..k] + [line] + lines[k + 1..];
            && |changed| == |lines| && changed[k] == line
            && forall i | 0 <= i < |lines| && i != k :: changed[i] == lines[i]
  {}

  lemma TwoAdded(lines: seq<string>, line: string)
    ensures var longer := lines + [line] + [""];
            |longer| == |lines| + 2 && longer[..|lines|] == lines && longer[|lines|..] == [line, ""]
  {}
}
