/** A skill file's frontmatter frame, written by buildSkillMarkdown
    (cmd/rysh/skill_scaffold.go) and split again by splitSkillFrontmatter
    (cmd/rysh/doctor_cmd.go). */
module SkillFile {
  import opened Text

  const FENCE := "---"

  /** The printed file. The YAML encoder ends its text with a newline: the
      frontmatter is `yaml` plus that newline. */
  function Build(yaml: string, rawBody: string, name: string): string {
    Framed(yaml, BodyOf(rawBody, name))
  }

  function Framed(yaml: string, body: string): string {
    FENCE + "\n" + yaml + "\n" + FENCE + "\n" + body + "\n"
  }

  function BodyOf(rawBody: string, name: string): string {
    var body := TrimSpace(rawBody);
    if body == "" then
      "You are " + name + ", a helpful assistant for this project. "
      + "Answer concisely; escalate anything you are unsure of."
    else body
  }

  predicate IsFence(line: string) { TrimSpace(line) == FENCE }

  /** The first fence from line i on. */
  function NextFence(lines: seq<string>, i: nat): (k: nat)
    requires i <= |lines|
    ensures i <= k <= |lines| && (k < |lines| ==> IsFence(lines[k]))
    ensures forall j | i <= j < k :: !IsFence(lines[j])
    decreases |lines| - i
  {
    if i == |lines| || IsFence(lines[i]) then i else NextFence(lines, i + 1)
  }

  datatype Parts = Parts(frontmatter: string, body: string)

  function Frame(content: string): Option<Parts> { FrameOf(Split(content, '\n')) }

  function FrameOf(lines: seq<string>): Option<Parts>
    requires lines != []
  {
    if !IsFence(lines[0]) then None
    else
      var k := NextFence(lines, 1);
      if k == |lines| then None else Some(Parts(Join(lines[1..k], "\n"), Join(lines[k + 1..], "\n")))
  }

  method SplitSkillFrontmatter(content: string) returns (parts: Option<Parts>)
    ensures parts == Frame(content)
  {
    var lines := Split(content, '\n');
    if !IsFence(lines[0]) {
      return None;
    }
    for i := 1 to |lines|
      invariant NextFence(lines, 1) == NextFence(lines, i)
    {
      if IsFence(lines[i]) {
        return Some(Parts(Join(lines[1..i], "\n"), Join(lines[i + 1..], "\n")));
      }
    }
    return None;
  }

  lemma FenceTrims()
    ensures IsFence(FENCE)
  {
    assert LeadingSpaces(FENCE) == 0 && FENCE[0..] == FENCE && TrimmedLength(FENCE) == 3;
  }

  lemma LinesOfFramed(yaml: string, body: string)
    ensures Split(Framed(yaml, body), '\n') == [FENCE] + Split(yaml, '\n') + [FENCE] + Split(body + "\n", '\n')
  {
    var tail := body + "\n";
    var inner := FENCE + "\n" + tail;
    SplitWhole(FENCE, '\n');
    SplitConcat(FENCE, '\n', tail);
    SplitConcat(yaml, '\n', inner);
    SplitConcat(FENCE, '\n', yaml + "\n" + inner);
    assert Framed(yaml, body) == FENCE + "\n" + (yaml + "\n" + inner);
  }

  lemma FramedFences(yaml: string, body: string, lines: seq<string>, own: seq<string>)
    requires lines == Split(Framed(yaml, body), '\n') && own == Split(yaml, '\n')
    ensures |lines| > |own| + 1 && lines[1..1 + |own|] == own && lines[2 + |own|..] == Split(body + "\n", '\n')
    ensures IsFence(lines[0]) && IsFence(lines[1 + |own|])
    ensures var k := NextFence(lines, 1); k <= 1 + |own| && (k == 1 + |own| <==> forall line <- own :: !IsFence(line))
  {
    LinesOfFramed(yaml, body);
    FenceTrims();
    assert forall j | 0 <= j < |own| :: lines[1 + j] == own[j];
    if k :| 0 <= k < |own| && IsFence(own[k]) {
      assert IsFence(lines[1 + k]);
    }
  }

  /** Splitting a generated file gives back exactly the frontmatter and the body
      that were printed, for every body, if and only if no frontmatter line is,
      up to blanks, a fence itself. */
  lemma SplitOfBuild(yaml: string, rawBody: string, name: string)
    ensures var default := "You are " + name + ", a helpful assistant for this project. "
                           + "Answer concisely; escalate anything you are unsure of.";
            var body := if TrimSpace(rawBody) != "" then TrimSpace(rawBody) else default;
            && (Frame(Build(yaml, rawBody, name)) == Some(Parts(yaml, body + "\n"))
                <==> forall line <- Split(yaml, '\n') :: TrimSpace(line) != "---")
  {
    SplitOfFramed(yaml, BodyOf(rawBody, name));
  }

  /** There is no frontmatter if and only if the text does not begin with a fence or
      nothing closes it. */
  lemma NoFrameIff(content: string)
    ensures var lines := Split(content, '\n');
            Frame(content).None? <==>
              TrimSpace(lines[0]) != "---" || forall j | 1 <= j < |lines| :: TrimSpace(lines[j]) != "---"
  {}

  lemma SplitOfFramed(yaml: string, body: string)
    ensures Frame(Framed(yaml, body)) == Some(Parts(yaml, body + "\n"))
       <==> forall line <- Split(yaml, '\n') :: !IsFence(line)
  {
    var own, lines := Split(yaml, '\n'), Split(Framed(yaml, body), '\n');
    FramedFences(yaml, body, lines, own);
    FrameAt(lines, own, yaml, body, NextFence(lines, 1));
  }

  lemma FrameAt(lines: seq<string>, own: seq<string>, yaml: string, body: string, k: nat)
    requires own == Split(yaml, '\n') && |lines| > |own| + 1 && 1 <= k <= 1 + |own|
    requires lines[1..1 + |own|] == own && lines[2 + |own|..] == Split(body + "\n", '\n')
    requires k <= |own| ==> IsFence(lines[k])
    ensures Join(lines[1..k], "\n") == yaml && Join(lines[k + 1..], "\n") == body + "\n" <==> k == 1 + |own|
  {
    if k == 1 + |own| {
      JoinOfSplit(yaml, '\n');
      JoinOfSplit(body + "\n", '\n');
    } else {
      assert lines[1..k] == own[..k - 1] && lines[1..1 + |own|][k - 1] == own[k - 1];
      ShorterJoin(yaml, k - 1);
    }
  }

  /** The lines before a fence do not make the whole text. */
  lemma ShorterJoin(s: string, n: nat)
    requires n < |Split(s, '\n')| && IsFence(Split(s, '\n')[n])
    ensures Join(Split(s, '\n')[..n], "\n") != s
  {
    var parts := Split(s, '\n');
    SplitFree(s, '\n');
    assert !IsFence("");
    if n > 0 {
      SplitOfJoin(parts[..n], '\n');
    }
  }

  const BLOCK := "description: |-"

  /** A value of which a line is "---" closes the frontmatter early, although the
      YAML encoder indents it: what is left of it opens the body. */
  lemma FenceInValue(rawBody: string, name: string)
    ensures var body := BodyOf(rawBody, name) + "\n";
            && Frame(Build(BLOCK + "\n" + "  ---", rawBody, name)) == Some(Parts(BLOCK, FENCE + "\n" + body))
            && Parts(BLOCK, FENCE + "\n" + body) != Parts(BLOCK + "\n" + "  ---", body)
  {
    var yaml, body := BLOCK + "\n" + "  ---", BodyOf(rawBody, name);
    LinesOfFramed(yaml, body);
    BlockLines();
    IndentedFence();
    FenceTrims();
    FrameOfFive(FENCE, BLOCK, "  ---", Framed(yaml, body), Split(body + "\n", '\n'));
    JoinOfSplit(body + "\n", '\n');
    JoinConcat([FENCE], Split(body + "\n", '\n'), "\n");
  }

  lemma BlockLines()
    ensures Split(BLOCK + "\n" + "  ---", '\n') == [BLOCK, "  ---"]
    ensures !IsFence(BLOCK)
  {
    assert '\n' !in BLOCK && '\n' !in "  ---";
    TwoLines(BLOCK, "  ---");
    NotFenceAt(BLOCK, 'd');
  }

  lemma TwoLines(a: string, b: string)
    requires '\n' !in a && '\n' !in b
    ensures Split(a + "\n" + b, '\n') == [a, b]
  {
    SplitConcat(a, '\n', b);
    SplitWhole(a, '\n');
    SplitWhole(b, '\n');
  }

  lemma NotFenceAt(line: string, c: char)
    requires line != "" && line[0] == c && !IsSpace(c) && c != '-'
    ensures !IsFence(line)
  {
    assert TrimLeft(line) == line;
    assert TrimSpace(line) != "" ==> TrimSpace(line)[0] == c;
  }

  lemma IndentedFence()
    ensures IsFence("  ---")
  {
    var line := "  ---";
    assert line[1..][0] == ' ' && line[1..][1..] == FENCE && LeadingSpaces(FENCE) == 0;
    assert LeadingSpaces(line[1..]) == 1 && LeadingSpaces(line) == 2 && line[2..] == FENCE;
    FenceTrims();
  }

  lemma FenceAtTwo(lines: seq<string>)
    requires |lines| > 2 && !IsFence(lines[1]) && IsFence(lines[2])
    ensures NextFence(lines, 1) == 2
  {
    var k := NextFence(lines, 1);
    assert k != 1;
  }

  lemma FrameOfFive(a: string, b: string, c: string, content: string, rest: seq<string>)
    requires Split(content, '\n') == [a] + [b, c] + [a] + rest && rest != []
    requires IsFence(a) && !IsFence(b) && IsFence(c)
    ensures Frame(content) == Some(Parts(b, Join([a] + rest, "\n")))
  {
    var lines := Split(content, '\n');
    FiveApart(a, b, c, rest);
    FenceAtTwo(lines);
    FrameAtFence(content, 2);
    assert Join([b], "\n") == b;
  }

  lemma FiveApart(a: string, b: string, c: string, rest: seq<string>)
    ensures var lines := [a] + [b, c] + [a] + rest;
            lines[0] == a && lines[1] == b && lines[2] == c && lines[1..2] == [b] && lines[3..] == [a] + rest
  {}

  lemma FrameAtFence(content: string, k: nat)
    requires var lines := Split(content, '\n'); IsFence(lines[0]) && NextFence(lines, 1) == k < |lines|
    ensures var lines := Split(content, '\n');
            Frame(content) == Some(Parts(Join(lines[1..k], "\n"), Join(lines[k + 1..], "\n")))
  {}
}
