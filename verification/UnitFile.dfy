/** The systemd user unit of a session (serviceSystemdUnit in
    cmd/rysh/service_cmd.go), against a reader of unit files. */
module UnitFile {
  import opened Text
  import opened Escaping

  // ---------------------------------------------------------------- the unit

  const MARKER := "written by rysh service install"

  function Head(sess: string): seq<string> {
    ["# " + MARKER, "[Unit]", "Description=rysh session " + sess, "After=network-online.target", "", "[Service]"]
  }

  /** "%" doubled, for WorkingDirectory, which takes no quotes. */
  function Doubled(s: string): string {
    if s == "" then "" else (if s[0] == '%' then "%%" else [s[0]]) + Doubled(s[1..])
  }

  const EXEC := "ExecStart"
  const DIR := "WorkingDirectory"
  const RESTART := "Restart=always"
  const TAIL := ["RestartSec=10", "", "[Install]", "WantedBy=default.target", ""]

  function ExecLine(exe: string, sess: string): string { EXEC + "=" + Words([exe, "daemon", sess]) }

  function DirLine(workDir: string): string { DIR + "=" + Doubled(workDir) }

  function SystemdUnit(exe: string, sess: string, workDir: string): string {
    Join(Head(sess) + [ExecLine(exe, sess), DirLine(workDir), RESTART] + TAIL, "\n")
  }

  /** serviceNameRe. */
  predicate IsSessionName(s: string) {
    s != "" && s[0] != '-' && forall c <- s :: IsDigit(c) || 'a' <= c <= 'z' || 'A' <= c <= 'Z' || c == '_' || c == '-'
  }

  /** The unit, line by line. */
  lemma UnitLines(exe: string, sess: string, workDir: string)
    ensures SystemdUnit(exe, sess, workDir) == Join([
              "# written by rysh service install",
              "[Unit]",
              "Description=rysh session " + sess,
              "After=network-online.target",
              "",
              "[Service]",
              "ExecStart=" + (SystemdQuote(exe) + (" " + (SystemdQuote("daemon") + (" " + SystemdQuote(sess))))),
              "WorkingDirectory=" + Doubled(workDir),
              "Restart=always",
              "RestartSec=10",
              "",
              "[Install]",
              "WantedBy=default.target",
              ""], "\n")
  {
    UnitKeys();
    ThreeWords(exe, "daemon", sess);
    var exec, dir := ExecLine(exe, sess), DirLine(workDir);
    FourteenLines("# " + MARKER, "Description=rysh session " + sess, exec, dir);
  }

  lemma UnitKeys()
    ensures "# " + MARKER == "# written by rysh service install"
    ensures EXEC + "=" == "ExecStart=" && DIR + "=" == "WorkingDirectory="
  {}

  lemma ThreeWords(a: string, b: string, c: string)
    ensures Words([a, b, c]) == SystemdQuote(a) + (" " + (SystemdQuote(b) + (" " + SystemdQuote(c))))
  {
    assert [a, b, c][1..] == [b, c] && [b, c][1..] == [c];
    assert Words([c]) == SystemdQuote(c) + "" == SystemdQuote(c);
    assert Words([b, c]) == SystemdQuote(b) + (" " + Words([c]));
    assert Words([a, b, c]) == SystemdQuote(a) + (" " + Words([b, c]));
  }

  lemma FourteenLines(mark: string, described: string, exec: string, dir: string)
    ensures [mark, "[Unit]", described, "After=network-online.target", "", "[Service]"] + [exec, dir, RESTART] + TAIL
         == [mark, "[Unit]", described, "After=network-online.target", "", "[Service]", exec, dir, "Restart=always",
             "RestartSec=10", "", "[Install]", "WantedBy=default.target", ""]
  {}

  // ---------------------------------------------------------------- the reader: lines

  /** What ends a line: a line feed, a carriage return or a NUL. */
  predicate LineEnd(c: char) { c in {'\n', '\r', '\0'} }

  predicate Unbroken(s: string) {
    '\n' !in s && '\r' !in s && '\0' !in s
  }

  /** Every line end as a line feed. */
  function Feeds(s: string): string {
    seq(|s|, i requires 0 <= i < |s| => if LineEnd(s[i]) then '\n' else s[i])
  }

  predicate Blank(c: char) { c == ' ' || c == '\t' }

  /** How many blanks s begins with, and how long it is without those at its end. */
  function BlanksBefore(s: string): (k: nat)
    ensures k <= |s| && (k < |s| ==> !Blank(s[k])) && forall i | 0 <= i < k :: Blank(s[i])
  {
    if s != "" && Blank(s[0]) then 1 + BlanksBefore(s[1..]) else 0
  }

  function LengthKept(s: string): (k: nat)
    ensures k <= |s| && (k > 0 ==> !Blank(s[k - 1])) && forall i | k <= i < |s| :: Blank(s[i])
  {
    if s != "" && Blank(s[|s| - 1]) then LengthKept(s[..|s| - 1]) else |s|
  }

  function StripLeft(s: string): string { s[BlanksBefore(s)..] }

  function StripRight(s: string): string { s[..LengthKept(s)] }

  function Strip(s: string): string { StripRight(StripLeft(s)) }

  predicate Comment(line: string) {
    var l := StripLeft(line);
    l != "" && l[0] in {'#', ';'}
  }

  function Code(lines: seq<string>): seq<string> {
    if lines == [] then [] else (if Comment(lines[0]) then [] else [lines[0]]) + Code(lines[1..])
  }

  /** The line ends in a backslash that is not itself escaped. */
  predicate Continues(line: string) {
    line != "" && line[|line| - 1] == '\\' && !Continues(line[..|line| - 1])
  }

  /** A continued line and the next are one, with a blank for the backslash. */
  function Logical(lines: seq<string>): seq<string>
    decreases |lines|
  {
    if |lines| <= 1 then lines
    else if Continues(lines[0]) then Logical([lines[0][..|lines[0]| - 1] + " " + lines[1]] + lines[2..])
    else [lines[0]] + Logical(lines[1..])
  }

  // ---------------------------------------------------------------- the reader: settings

  /** The commands of the service so far, None for one that is refused. */
  datatype Reading = Reading(section: string, commands: seq<Option<seq<string>>>, dir: Option<string>)

  function IndexOfChar(s: string, c: char): (i: nat)
    ensures i <= |s| && (i < |s| ==> s[i] == c)
  {
    if s == "" || s[0] == c then 0 else 1 + IndexOfChar(s[1..], c)
  }

  function Take(r: Reading, line: string): Reading { TakeWith(Assign, r, Strip(line)) }

  /** A line without the blanks around it, given what an assignment does. */
  function TakeWith(assign: (Reading, string, string) -> Reading, r: Reading, l: string): Reading {
    if l == "" then r
    else if l[0] == '[' then r.(section := l)
    else if r.section != "[Service]" then r
    else
      var i := IndexOfChar(l, '=');
      if i == |l| then r else assign(r, StripRight(l[..i]), Strip(l[i + 1..]))
  }

  /** An empty ExecStart takes back the commands before it. */
  function Assign(r: Reading, key: string, value: string): Reading {
    if key == EXEC then
      if value == "" then r.(commands := []) else r.(commands := r.commands + [Runnable(ReadCommand(value))])
    else if key == DIR then r.(dir := ReadDir(value))
    else r
  }

  /** Line after line. */
  function Fold(step: (Reading, string) -> Reading, r: Reading, lines: seq<string>): Reading
    decreases |lines|
  {
    if lines == [] then r else Fold(step, step(r, lines[0]), lines[1..])
  }

  /** The special prefixes of a command are no part of the path. */
  function Unprefixed(word: string): string {
    if word != "" && word[0] in {'-', '@', ':', '+', '!', '|'} then Unprefixed(word[1..]) else word
  }

  function Runnable(command: Option<seq<string>>): Option<seq<string>> {
    if command.None? || command.value == [] then None
    else
      var path := Unprefixed(command.value[0]);
      if Executable(path) then Some([path] + command.value[1..]) else None
  }

  /** An absolute path that is no directory, without control characters, quotes and backslashes. */
  predicate Executable(path: string) {
    && path != "" && path[0] == '/'
    && (forall i | 0 <= i < |path| :: Safe(path[i]))
    && !HasSuffix(path, "/") && !HasSuffix(path, "/.") && !HasSuffix(path, "/..")
  }

  predicate Safe(c: char) {
    c as int >= 0x20 && c as int != 0x7F && c !in {'"', '\'', '\\'}
  }

  /** "%%" stands for "%", any other specifier for something else. */
  function Unspecified(v: string): Option<string>
    decreases |v|
  {
    if v == "" then Some("")
    else if v[0] != '%' then Put(v[0], Unspecified(v[1..]))
    else if |v| >= 2 && v[1] == '%' then Put('%', Unspecified(v[2..]))
    else None
  }

  function Put(c: char, s: Option<string>): Option<string> {
    match s case None => None case Some(t) => Some([c] + t)
  }

  function ReadDir(v: string): Option<string> {
    var d := Unspecified(v);
    if d.Some? && d.value != "" && d.value[0] == '/' then d else None
  }

  /** What a unit has systemd do: one command, in one directory. */
  datatype Service = Service(command: seq<string>, dir: string)

  function ReadUnit(text: string): Option<Service> {
    Done(Fold(Take, Reading("", [], None), Logical(Code(Split(Feeds(text), '\n')))))
  }

  function Done(r: Reading): Option<Service> {
    if |r.commands| == 1 && r.commands[0].Some? && r.dir.Some? then Some(Service(r.commands[0].value, r.dir.value))
    else None
  }

  // ---------------------------------------------------------------- what is read has no line ends

  lemma UnbrokenConcat(a: string, b: string)
    requires Unbroken(a) && Unbroken(b)
    ensures Unbroken(a + b)
  {}

  /** Every piece of an unbroken text is unbroken. */
  lemma UnbrokenPart(s: string, t: string)
    requires Unbroken(s) && forall c <- t :: c in s
    ensures Unbroken(t)
  {}

  lemma {:induction false} QuotedUnbroken(x: string, variables: bool)
    requires Unbroken(x)
    ensures var r := ReadQuoted(x, variables); r.Got? ==> Unbroken(r.text)
    decreases |x|
  {
    if x != "" {
      QuotedUnbroken(x[1..], variables);
      if |x| >= 2 {
        QuotedUnbroken(x[2..], variables);
      }
    }
  }

  lemma {:induction false} UnprefixedUnbroken(word: string)
    requires Unbroken(word)
    ensures Unbroken(Unprefixed(word))
  {
    if word != "" {
      UnprefixedUnbroken(word[1..]);
    }
  }

  lemma {:induction false} UnspecifiedUnbroken(v: string)
    requires Unbroken(v)
    ensures Unspecified(v).Some? ==> Unbroken(Unspecified(v).value)
    decreases |v|
  {
    if v != "" {
      UnspecifiedUnbroken(v[1..]);
      if |v| >= 2 {
        UnspecifiedUnbroken(v[2..]);
      }
    }
  }

  /** The program and the directory read so far. */
  predicate CleanReading(r: Reading) {
    && (forall i | 0 <= i < |r.commands| :: CleanCommand(r.commands[i]))
    && (r.dir.Some? ==> Unbroken(r.dir.value))
  }

  predicate CleanCommand(c: Option<seq<string>>) {
    c.Some? ==> c.value != [] && Unbroken(c.value[0])
  }

  lemma RunnableClean(v: string)
    requires Unbroken(v)
    ensures CleanCommand(Runnable(ReadCommand(v)))
  {
    if v != "" {
      QuotedUnbroken(v[1..], false);
      var c := ReadCommand(v);
      if c.Some? {
        assert c.value[0] == ReadQuoted(v[1..], false).text;
        UnprefixedUnbroken(c.value[0]);
      }
    }
  }

  lemma StripPart(s: string)
    requires Unbroken(s)
    ensures Unbroken(Strip(s))
  {
    UnbrokenPart(s, StripLeft(s));
    UnbrokenPart(StripLeft(s), Strip(s));
  }

  lemma TakeClean(r: Reading, line: string)
    requires CleanReading(r) && Unbroken(line)
    ensures CleanReading(Take(r, line))
  {
    StripPart(line);
    forall q, key, value | CleanReading(q) && Unbroken(value) ensures CleanReading(Assign(q, key, value)) {
      AssignClean(q, key, value);
    }
    TakeWithClean(Assign, r, Strip(line));
  }

  lemma TakeWithClean(assign: (Reading, string, string) -> Reading, r: Reading, l: string)
    requires CleanReading(r) && Unbroken(l)
    requires forall q, key, value | CleanReading(q) && Unbroken(value) :: CleanReading(assign(q, key, value))
    ensures CleanReading(TakeWith(assign, r, l))
  {
    var i := IndexOfChar(l, '=');
    if i < |l| {
      UnbrokenPart(l, l[i + 1..]);
      StripPart(l[i + 1..]);
    }
  }

  lemma AssignClean(r: Reading, key: string, value: string)
    requires CleanReading(r) && Unbroken(value)
    ensures CleanReading(Assign(r, key, value))
  {
    RunnableClean(value);
    UnspecifiedUnbroken(value);
  }

  lemma {:induction false} TakeAllClean(r: Reading, lines: seq<string>)
    requires CleanReading(r) && forall i | 0 <= i < |lines| :: Unbroken(lines[i])
    ensures CleanReading(Fold(Take, r, lines))
    decreases |lines|
  {
    if lines != [] {
      TakeClean(r, lines[0]);
      TakeAllClean(Take(r, lines[0]), lines[1..]);
    }
  }

  lemma {:induction false} CodeClean(lines: seq<string>)
    requires forall i | 0 <= i < |lines| :: Unbroken(lines[i])
    ensures forall i | 0 <= i < |Code(lines)| :: Unbroken(Code(lines)[i])
  {
    if lines != [] {
      CodeClean(lines[1..]);
    }
  }

  lemma {:induction false} LogicalClean(lines: seq<string>)
    requires forall i | 0 <= i < |lines| :: Unbroken(lines[i])
    ensures forall i | 0 <= i < |Logical(lines)| :: Unbroken(Logical(lines)[i])
    decreases |lines|
  {
    if |lines| > 1 {
      if Continues(lines[0]) {
        var first := lines[0][..|lines[0]| - 1];
        UnbrokenPart(lines[0], first);
        UnbrokenConcat(first, " ");
        UnbrokenConcat(first + " ", lines[1]);
        LogicalClean([first + " " + lines[1]] + lines[2..]);
      } else {
        LogicalClean(lines[1..]);
      }
    }
  }

  lemma FeedsSplit(text: string)
    ensures forall i | 0 <= i < |Split(Feeds(text), '\n')| :: Unbroken(Split(Feeds(text), '\n')[i])
  {
    SplitFree(Feeds(text), '\n');
    SplitParts(Feeds(text));
    assert '\r' !in Feeds(text) && '\0' !in Feeds(text);
  }

  lemma {:induction false} SplitParts(s: string)
    ensures forall i | 0 <= i < |Split(s, '\n')| :: forall c <- Split(s, '\n')[i] :: c in s
  {
    if s != "" {
      SplitParts(s[1..]);
    }
  }

  /** Whatever the text, no path that is read has a line end. */
  lemma ReadIsUnbroken(text: string)
    ensures var u := ReadUnit(text);
            u.Some? ==> u.value.command != [] && Unbroken(u.value.command[0]) && Unbroken(u.value.dir)
  {
    var lines := Split(Feeds(text), '\n');
    FeedsSplit(text);
    CodeClean(lines);
    LogicalClean(Code(lines));
    var r := Fold(Take, Reading("", [], None), Logical(Code(lines)));
    TakeAllClean(Reading("", [], None), Logical(Code(lines)));
    assert |r.commands| == 1 ==> CleanCommand(r.commands[0]);
  }

  // ---------------------------------------------------------------- the lines of our unit

  lemma FeedsConcat(a: string, b: string)
    ensures Feeds(a + b) == Feeds(a) + Feeds(b)
  {}

  lemma FeedsUnbroken(s: string)
    requires Unbroken(s)
    ensures Feeds(s) == s && '\n' !in s
  {}

  lemma {:induction false} FeedsJoin(parts: seq<string>)
    requires forall i | 0 <= i < |parts| :: Unbroken(parts[i])
    ensures Feeds(Join(parts, "\n")) == Join(parts, "\n")
  {
    if |parts| == 1 {
      FeedsUnbroken(parts[0]);
    } else if |parts| > 1 {
      FeedsJoin(parts[1..]);
      FeedsUnbroken(parts[0]);
      FeedsConcat(parts[0], "\n");
      FeedsConcat(parts[0] + "\n", Join(parts[1..], "\n"));
      assert Feeds("\n") == "\n";
    }
  }

  lemma LinesRead(lines: seq<string>)
    requires lines != [] && forall i | 0 <= i < |lines| :: Unbroken(lines[i])
    ensures Split(Feeds(Join(lines, "\n")), '\n') == lines
  {
    FeedsJoin(lines);
    forall i | 0 <= i < |lines| ensures '\n' !in lines[i] {
      FeedsUnbroken(lines[i]);
    }
    SplitOfJoin(lines, '\n');
  }

  /** A line that stands for itself: no comment, and not continued. */
  predicate Plain(line: string) {
    Unbroken(line) && !Continues(line) && (line != "" ==> !Blank(line[0]) && line[0] !in {'#', ';'})
  }

  lemma PlainIsCode(line: string)
    requires line != "" ==> !Blank(line[0]) && line[0] !in {'#', ';'}
    ensures !Comment(line)
  {}

  lemma {:induction false} CodeKeeps(a: seq<string>, b: seq<string>)
    requires forall i | 0 <= i < |a| :: !Comment(a[i])
    ensures Code(a + b) == a + Code(b)
  {
    if a == [] {
      assert a + b == b;
    } else {
      assert (a + b)[1..] == a[1..] + b;
      CodeKeeps(a[1..], b);
    }
  }

  lemma LogicalStep(line: string, rest: seq<string>)
    requires !Continues(line)
    ensures Logical([line] + rest) == [line] + Logical(rest)
  {
    assert ([line] + rest)[1..] == rest;
    assert rest == [] ==> [line] + rest == [line] && Logical(rest) == [];
  }

  lemma {:induction false} LogicalKeeps(a: seq<string>, b: seq<string>)
    requires forall i | 0 <= i < |a| :: !Continues(a[i])
    ensures Logical(a + b) == a + Logical(b)
  {
    if a == [] {
      assert a + b == b && a + Logical(b) == Logical(b);
    } else {
      LogicalKeeps(a[1..], b);
      LogicalStep(a[0], a[1..] + b);
      assert a + b == [a[0]] + (a[1..] + b);
      assert a + Logical(b) == [a[0]] + (a[1..] + Logical(b));
    }
  }

  lemma {:induction false} FoldConcat(step: (Reading, string) -> Reading, r: Reading, a: seq<string>, b: seq<string>)
    ensures Fold(step, r, a + b) == Fold(step, Fold(step, r, a), b)
    decreases |a|
  {
    if a == [] {
      assert a + b == b;
    } else {
      assert (a + b)[1..] == a[1..] + b;
      FoldConcat(step, step(r, a[0]), a[1..], b);
    }
  }

  // ---------------------------------------------------------------- taking one line

  lemma StripKeepsEnds(s: string)
    requires s != "" && !Blank(s[0])
    ensures Strip(s) != "" && Strip(s)[0] == s[0] && (!Blank(s[|s| - 1]) ==> Strip(s) == s)
  {
    assert StripLeft(s) == s;
  }

  /** A line outside the service changes nothing but the section. */
  lemma TakeElsewhere(r: Reading, line: string)
    requires r.section != "[Service]" && line != "" && !Blank(line[0]) && line[0] != '['
    ensures Take(r, line) == r
  {
    StripKeepsEnds(line);
  }

  lemma TakeSection(r: Reading, line: string)
    requires line != "" && line[0] == '[' && !Blank(line[|line| - 1])
    ensures Take(r, line) == r.(section := line)
  {
    StripKeepsEnds(line);
  }

  lemma {:induction false} IndexAfter(a: string, c: char, b: string)
    requires c !in a
    ensures IndexOfChar(a + [c] + b, c) == |a|
  {
    if a != "" {
      assert (a + [c] + b)[1..] == a[1..] + [c] + b;
      IndexAfter(a[1..], c, b);
    }
  }

  lemma {:induction false} StripRightConcat(a: string, b: string)
    requires a != "" && !Blank(a[|a| - 1])
    ensures StripRight(a + b) == a + StripRight(b)
  {
    if b == "" {
      assert a + b == a;
    } else if Blank(b[|b| - 1]) {
      assert (a + b)[..|a + b| - 1] == a + b[..|b| - 1];
      StripRightConcat(a, b[..|b| - 1]);
    } else {
      assert StripRight(b) == b;
    }
  }

  predicate IsKey(key: string) {
    key != "" && '=' !in key && key[0] != '[' && !Blank(key[0]) && !Blank(key[|key| - 1])
  }

  /** An assignment in the service: its value without the blanks around it. */
  lemma TakeAssignment(r: Reading, key: string, value: string) returns (v: string)
    requires r.section == "[Service]" && IsKey(key)
    ensures Take(r, key + "=" + value) == Assign(r, key, v)
    ensures v != "" ==> !Blank(v[0]) && !Blank(v[|v| - 1])
    ensures value != "" && !Blank(value[|value| - 1]) ==> v != "" && v[|v| - 1] == value[|value| - 1]
    ensures value != "" && !Blank(value[0]) && !Blank(value[|value| - 1]) ==> v == value
    ensures value == "" ==> v == ""
  {
    v := AssignmentTaken(Assign, r, key, value);
  }

  lemma AssignmentTaken(assign: (Reading, string, string) -> Reading, r: Reading, key: string, value: string)
      returns (v: string)
    requires r.section == "[Service]" && IsKey(key)
    ensures TakeWith(assign, r, Strip(key + "=" + value)) == assign(r, key, v)
    ensures v != "" ==> !Blank(v[0]) && !Blank(v[|v| - 1])
    ensures value != "" && !Blank(value[|value| - 1]) ==> v != "" && v[|v| - 1] == value[|value| - 1]
    ensures value != "" && !Blank(value[0]) && !Blank(value[|value| - 1]) ==> v == value
    ensures value == "" ==> v == ""
  {
    AssignmentLine(key, value);
    TakeSplit(assign, r, Strip(key + "=" + value), key, StripRight(value));
    v := Strip(StripRight(value));
    ValueStripped(value);
  }

  lemma TakeSplit(assign: (Reading, string, string) -> Reading, r: Reading, l: string, key: string, kept: string)
    requires r.section == "[Service]" && l != "" && l[0] != '[' && IndexOfChar(l, '=') == |key| < |l|
    requires StripRight(l[..|key|]) == key && l[|key| + 1..] == kept
    ensures TakeWith(assign, r, l) == assign(r, key, Strip(kept))
  {}

  lemma ValueStripped(value: string)
    ensures var v := Strip(StripRight(value));
            && (v != "" ==> !Blank(v[0]) && !Blank(v[|v| - 1]))
            && (value != "" && !Blank(value[|value| - 1]) ==> v != "" && v[|v| - 1] == value[|value| - 1])
            && (value != "" && !Blank(value[0]) && !Blank(value[|value| - 1]) ==> v == value)
            && (value == "" ==> v == "")
  {
    StripEnds(StripRight(value));
    if value == "" || !Blank(value[|value| - 1]) {
      KeptWhole(value);
    }
  }

  lemma KeptWhole(value: string)
    requires value == "" || !Blank(value[|value| - 1])
    ensures StripRight(value) == value
  {}

  /** What a stripped assignment is split into. */
  lemma AssignmentLine(key: string, value: string)
    requires IsKey(key)
    ensures var l, kept := Strip(key + "=" + value), StripRight(value);
            && l != "" && l[0] == key[0] && IndexOfChar(l, '=') == |key| < |l|
            && l[|key| + 1..] == kept && StripRight(l[..|key|]) == key
  {
    var line, kept := key + "=" + value, StripRight(value);
    assert StripLeft(line) == line;
    StripRightConcat(key + "=", value);
    var l := key + ['='] + kept;
    assert Strip(line) == l;
    IndexAfter(key, '=', kept);
    assert l[..|key|] == key && l[|key| + 1..] == kept && StripRight(key) == key;
  }

  lemma StripEnds(s: string)
    ensures var v := Strip(s);
            && (v != "" ==> !Blank(v[0]) && !Blank(v[|v| - 1]))
            && (s != "" && !Blank(s[|s| - 1]) ==> v != "" && v[|v| - 1] == s[|s| - 1])
            && (s != "" && !Blank(s[0]) && !Blank(s[|s| - 1]) ==> v == s)
  {
    var t := StripLeft(s);
    assert t != "" ==> t[|t| - 1] == s[|s| - 1];
  }

  // ---------------------------------------------------------------- taking the fixed lines

  const START := Reading("", [], None)

  predicate Header(line: string) {
    line != "" && line[0] == '[' && !Blank(line[|line| - 1])
  }

  predicate Elsewhere(r: Reading, line: string) {
    line == "" || (r.section != "[Service]" && line[0] != '[' && !Blank(line[0]))
  }

  /** What a step does to lines that set nothing. */
  ghost predicate SkipsOthers(step: (Reading, string) -> Reading) {
    && (forall r, line | Header(line) :: step(r, line) == r.(section := line))
    && (forall r, line | Elsewhere(r, line) :: step(r, line) == r)
  }

  lemma TakeSkipsOthers()
    ensures SkipsOthers(Take)
  {
    forall r, line | Header(line) ensures Take(r, line) == r.(section := line) {
      TakeSection(r, line);
    }
    forall r, line | Elsewhere(r, line) ensures Take(r, line) == r {
      if line == "" {
        TakeNothing(r);
      } else {
        TakeElsewhere(r, line);
      }
    }
  }

  lemma TakeHead(sess: string)
    ensures Fold(Take, START, Head(sess)[1..]) == START.(section := "[Service]")
  {
    var h := Head(sess)[1..];
    assert |h| == 5 && h[0] == "[Unit]" && h[3] == "" && h[4] == "[Service]";
    assert h[1] == "Description=rysh session " + sess && h[2] == "After=network-online.target";
    TakeSkipsOthers();
    HeadLines(Take, h);
  }

  lemma HeadLines(step: (Reading, string) -> Reading, h: seq<string>)
    requires SkipsOthers(step) && |h| == 5 && Header(h[0]) && h[0] != "[Service]" && h[3] == "" && Header(h[4])
    requires forall i | i in [1, 2] :: h[i] != "" && h[i][0] != '[' && !Blank(h[i][0])
    ensures Fold(step, START, h) == START.(section := h[4])
  {
    var unit := START.(section := h[0]);
    FiveLines(step, [START, unit, unit, unit, unit, START.(section := h[4])], h);
  }

  lemma TakeNothing(r: Reading)
    ensures Take(r, "") == r
  {}

  /** Lines one by one: run lists the readings before and after each. */
  lemma {:induction false} LineByLine(step: (Reading, string) -> Reading, run: seq<Reading>, lines: seq<string>)
    requires |run| == |lines| + 1 && forall i | 0 <= i < |lines| :: run[i + 1] == step(run[i], lines[i])
    ensures Fold(step, run[0], lines) == run[|lines|]
    decreases |lines|
  {
    if lines != [] {
      LineByLine(step, run[1..], lines[1..]);
    }
  }

  lemma FiveLines(step: (Reading, string) -> Reading, run: seq<Reading>, h: seq<string>)
    requires |run| == 6 && |h| == 5
    requires step(run[0], h[0]) == run[1] && step(run[1], h[1]) == run[2] && step(run[2], h[2]) == run[3]
    requires step(run[3], h[3]) == run[4] && step(run[4], h[4]) == run[5]
    ensures Fold(step, run[0], h) == run[5]
  {
    LineByLine(step, run, h);
  }

  lemma OneLine(step: (Reading, string) -> Reading, r: Reading, line: string)
    ensures Fold(step, r, [line]) == step(r, line)
  {
    LineByLine(step, [r, step(r, line)], [line]);
  }

  lemma TwoLines(step: (Reading, string) -> Reading, r: Reading, a: string, b: string)
    ensures Fold(step, r, [a, b]) == step(step(r, a), b)
  {
    LineByLine(step, [r, step(r, a), step(step(r, a), b)], [a, b]);
  }

  lemma TakeOtherSetting(r: Reading, key: string, value: string)
    requires r.section == "[Service]" && IsKey(key) && key != EXEC && key != DIR
    ensures Take(r, key + "=" + value) == r
  {
    var v := TakeAssignment(r, key, value);
  }

  lemma TakeRestart(r: Reading)
    requires r.section == "[Service]"
    ensures Take(r, RESTART) == r
  {
    assert RESTART == "Restart" + "=" + "always";
    TakeOtherSetting(r, "Restart", "always");
  }

  /** What follows the directory changes neither command nor directory. */
  lemma TakeTail(r: Reading)
    requires r.section == "[Service]"
    ensures var t := Fold(Take, r, TAIL); t.commands == r.commands && t.dir == r.dir
  {
    TailShape();
    TakeOtherSetting(r, "RestartSec", "10");
    TakeSkipsOthers();
    LastLines(Take, r, TAIL);
  }

  lemma TailShape()
    ensures |TAIL| == 5 && TAIL[0] == "RestartSec" + "=" + "10" && TAIL[1] == "" && TAIL[4] == ""
    ensures Header(TAIL[2]) && TAIL[2] != "[Service]" && TAIL[3] != "" && TAIL[3][0] != '[' && !Blank(TAIL[3][0])
  {
    assert TAIL[2] == "[Install]" && TAIL[3] == "WantedBy=default.target";
  }

  lemma LastLines(step: (Reading, string) -> Reading, r: Reading, t: seq<string>)
    requires SkipsOthers(step) && |t| == 5 && step(r, t[0]) == r && t[1] == "" && Header(t[2]) && t[2] != "[Service]"
    requires t[3] != "" && t[3][0] != '[' && !Blank(t[3][0]) && t[4] == ""
    ensures Fold(step, r, t).commands == r.commands && Fold(step, r, t).dir == r.dir
  {
    var other := r.(section := t[2]);
    FiveLines(step, [r, r, r, other, other, other], t);
  }

  // ---------------------------------------------------------------- the two settings

  /** A path that can be quoted: what systemd takes for an executable, without "$". */
  predicate PlainPath(exe: string) { Executable(exe) && '$' !in exe }

  /** A directory that can be assigned as it is. */
  predicate PlainDir(dir: string) {
    && dir != "" && dir[0] == '/' && Unbroken(dir)
    && !Blank(dir[|dir| - 1]) && !Continues(dir)
  }

  /** How many backslashes s ends in. */
  function Backslashes(s: string): nat {
    if s != "" && s[|s| - 1] == '\\' then 1 + Backslashes(s[..|s| - 1]) else 0
  }

  lemma {:induction false} ContinuesIff(s: string)
    ensures Continues(s) <==> Backslashes(s) % 2 == 1
  {
    if s != "" && s[|s| - 1] == '\\' {
      ContinuesIff(s[..|s| - 1]);
    }
  }

  /** The path is absolute and no directory, without control characters, quotes,
      backslashes and "$"; the directory is absolute, without line ends, and ends in
      no blank and no odd number of backslashes. */
  lemma PlainIff(exe: string, dir: string)
    ensures PlainPath(exe) <==>
              && exe != "" && exe[0] == '/'
              && (forall i | 0 <= i < |exe| ::
                    0x20 <= exe[i] as int != 0x7F && exe[i] !in ['"', '\'', '\\', '$'])
              && !HasSuffix(exe, "/") && !HasSuffix(exe, "/.") && !HasSuffix(exe, "/..")
    ensures PlainDir(dir) <==>
              && dir != "" && dir[0] == '/' && '\n' !in dir && '\r' !in dir && '\0' !in dir
              && dir[|dir| - 1] != ' ' && dir[|dir| - 1] != '\t' && Backslashes(dir) % 2 == 0
  {
    ContinuesIff(dir);
  }

  lemma WordsEnds(args: seq<string>)
    requires args != []
    ensures var w := Words(args); w != "" && w[0] == '"' && w[|w| - 1] == '"'
    decreases |args|
  {
    if |args| > 1 {
      WordsEnds(args[1..]);
    }
  }

  /** The command is the one quoted, if and only if its path is plain. */
  lemma CommandIffPlain(exe: string, args: seq<string>)
    requires args != []
    ensures var c := Runnable(ReadCommand(Words([exe] + args)));
            && (PlainPath(exe) ==> c == Some([exe] + args))
            && (c.Some? && c.value[0] == exe ==> PlainPath(exe))
  {
    CommandRoundTrip(exe, args);
    DollarsIff(exe);
    FirstRun(Dollars(exe), args);
    if exe != "" && exe[0] == '/' {
      assert Dollars(exe)[0] == '/';
      assert Unprefixed(Dollars(exe)) == Dollars(exe);
    }
  }

  lemma FirstRun(word: string, args: seq<string>)
    ensures Runnable(Some([word] + args))
         == if Executable(Unprefixed(word)) then Some([Unprefixed(word)] + args) else None
  {
    assert ([word] + args)[1..] == args;
  }

  lemma {:induction false} DoubledIsRead(s: string)
    ensures Unspecified(Doubled(s)) == Some(s)
  {
    if s != "" {
      DoubledIsRead(s[1..]);
      var d := Doubled(s);
      if s[0] == '%' {
        assert d[2..] == Doubled(s[1..]);
      } else {
        assert d[1..] == Doubled(s[1..]);
      }
      assert [s[0]] + s[1..] == s;
    }
  }

  lemma {:induction false} LastRead(v: string)
    ensures var d := Unspecified(v);
            d.Some? && v != "" ==> d.value != "" && d.value[|d.value| - 1] == v[|v| - 1]
    decreases |v|
  {
    if v != "" {
      LastRead(v[1..]);
      if |v| >= 2 {
        LastRead(v[2..]);
      }
      assert Unspecified("") == Some("");
    }
  }

  lemma {:induction false} DoubledConcat(a: string, b: string)
    ensures Doubled(a + b) == Doubled(a) + Doubled(b)
  {
    if a == "" {
      assert a + b == b;
    } else {
      assert (a + b)[1..] == a[1..] + b;
      DoubledConcat(a[1..], b);
    }
  }

  lemma DoubledEnd(dir: string)
    requires dir != ""
    ensures var n := |dir| - 1; Doubled(dir) == Doubled(dir[..n]) + if dir[n] == '%' then "%%" else [dir[n]]
    ensures Doubled(dir) != "" && Doubled(dir)[|Doubled(dir)| - 1] == dir[|dir| - 1]
  {
    var n := |dir| - 1;
    DoubledConcat(dir[..n], [dir[n]]);
    assert dir == dir[..n] + [dir[n]] && [dir[n]][1..] == "";
  }

  /** Doubling and a key in front leave the end of a line as it is. */
  lemma {:induction false} DirLineContinues(dir: string)
    ensures Continues(DirLine(dir)) <==> Continues(dir)
    ensures dir != "" && dir[|dir| - 1] == '\\' ==> DirLine(dir)[..|DirLine(dir)| - 1] == DirLine(dir[..|dir| - 1])
  {
    if dir == "" {
      EndOfLine(DIR, "=");
      assert DirLine(dir) == DIR + "=";
    } else {
      var n := |dir| - 1;
      var last := if dir[n] == '%' then "%%" else [dir[n]];
      DirLineContinues(dir[..n]);
      DoubledEnd(dir);
      EndOfLine(DirLine(dir[..n]), last);
      assert DirLine(dir) == DirLine(dir[..n]) + last;
      ContinuesAt(DirLine(dir[..n]), last);
    }
  }

  /** Only a single backslash at the end makes a difference. */
  lemma ContinuesAt(a: string, last: string)
    requires last != "" && (last[|last| - 1] == '\\' ==> |last| == 1)
    ensures Continues(a + last) <==> last[|last| - 1] == '\\' && !Continues(a)
  {
    EndOfLine(a, last);
  }

  lemma EndOfLine(a: string, last: string)
    requires last != ""
    ensures (a + last)[|a + last| - 1] == last[|last| - 1]
    ensures |last| == 1 ==> (a + last)[..|a + last| - 1] == a
  {}

  lemma {:induction false} DoubledUnbroken(s: string)
    requires Unbroken(s)
    ensures Unbroken(Doubled(s))
  {
    if s != "" {
      UnbrokenPart(s, s[1..]);
      DoubledUnbroken(s[1..]);
    }
  }

  // ---------------------------------------------------------------- the whole unit

  lemma SessionPlain(sess: string)
    requires IsSessionName(sess)
    ensures Unbroken(sess) && sess[|sess| - 1] != '\\'
  {
    assert sess[|sess| - 1] in sess;
  }

  lemma PlainPrefixed(key: string, text: string)
    requires Unbroken(key) && key != "" && !Blank(key[0]) && key[0] !in {'#', ';'}
    requires Unbroken(text) && text != "" && text[|text| - 1] != '\\'
    ensures Plain(key + text)
  {
    UnbrokenConcat(key, text);
    assert (key + text)[|key + text| - 1] == text[|text| - 1];
  }

  predicate AllPlain(lines: seq<string>) {
    forall i | 0 <= i < |lines| :: Plain(lines[i])
  }

  lemma HeadPlain(sess: string)
    requires IsSessionName(sess)
    ensures AllPlain(Head(sess)[1..])
  {
    SessionPlain(sess);
    assert Unbroken("Description=rysh session ");
    PlainPrefixed("Description=rysh session ", sess);
    FixedPlain();
    AllOfFive("[Unit]", "Description=rysh session " + sess, "After=network-online.target", "", "[Service]");
  }

  lemma FixedPlain()
    ensures Plain("[Unit]") && Plain("[Service]") && Plain("") && Plain("After=network-online.target")
  {
    PlainAfter();
  }

  lemma PlainAfter()
    ensures Plain("After=network-online.target")
  {
    assert Unbroken("After=") && Unbroken("network-online.target");
    PlainPrefixed("After=", "network-online.target");
    assert "After=" + "network-online.target" == "After=network-online.target";
  }

  lemma AllOfFive(a: string, b: string, c: string, d: string, e: string)
    requires Plain(a) && Plain(b) && Plain(c) && Plain(d) && Plain(e)
    ensures AllPlain([a, b, c, d, e])
  {}

  lemma TailPlain()
    ensures AllPlain(TAIL) && Plain(RESTART)
  {
    assert Plain("RestartSec=10") && Plain("") && Plain("[Install]");
    PlainWanted();
    AllOfFive("RestartSec=10", "", "[Install]", "WantedBy=default.target", "");
  }

  lemma PlainWanted()
    ensures Plain("WantedBy=default.target")
  {
    assert Unbroken("WantedBy=") && Unbroken("default.target");
    PlainPrefixed("WantedBy=", "default.target");
    assert "WantedBy=" + "default.target" == "WantedBy=default.target";
  }

  lemma MarkerLine()
    ensures Unbroken("# " + MARKER) && Comment("# " + MARKER)
  {
    assert Unbroken("# ") && Unbroken(MARKER);
    UnbrokenConcat("# ", MARKER);
  }

  lemma {:induction false} EscapedUnbroken(s: string)
    requires Unbroken(s)
    ensures Unbroken(EscapeAll(s))
  {
    if s != "" {
      UnbrokenPart(s, s[1..]);
      EscapedUnbroken(s[1..]);
      UnbrokenConcat(Escaped(s[0]), EscapeAll(s[1..]));
    }
  }

  lemma {:induction false} WordsUnbroken(args: seq<string>)
    requires forall i | 0 <= i < |args| :: Unbroken(args[i])
    ensures Unbroken(Words(args))
  {
    if args != [] {
      EscapedUnbroken(args[0]);
      UnbrokenConcat("\"", EscapeAll(args[0]));
      UnbrokenConcat("\"" + EscapeAll(args[0]), "\"");
      WordsUnbroken(args[1..]);
      UnbrokenConcat(" ", Words(args[1..]));
      UnbrokenConcat(SystemdQuote(args[0]), if |args| == 1 then "" else " " + Words(args[1..]));
    }
  }

  lemma ExecPlain(exe: string, sess: string)
    requires Unbroken(exe) && IsSessionName(sess)
    ensures Plain(ExecLine(exe, sess))
  {
    SessionPlain(sess);
    assert Unbroken("daemon");
    CommandPlain([exe, "daemon", sess]);
  }

  lemma CommandPlain(args: seq<string>)
    requires args != [] && forall i | 0 <= i < |args| :: Unbroken(args[i])
    ensures Plain(EXEC + "=" + Words(args))
  {
    WordsUnbroken(args);
    WordsEnds(args);
    ExecKey();
    PlainWords(EXEC + "=", Words(args));
  }

  lemma PlainWords(key: string, words: string)
    requires Unbroken(key) && key != "" && key[0] == 'E' && Unbroken(words) && words != "" && words[|words| - 1] == '"'
    ensures Plain(key + words)
  {
    PlainPrefixed(key, words);
  }

  lemma ExecKey()
    ensures Unbroken(EXEC + "=") && (EXEC + "=")[0] == 'E'
  {}

  lemma DirUnbroken(dir: string)
    requires Unbroken(dir)
    ensures Unbroken(DirLine(dir)) && !Comment(DirLine(dir))
  {
    DoubledUnbroken(dir);
    assert Unbroken("WorkingDirectory=") && "WorkingDirectory=" == DIR + "=";
    UnbrokenConcat("WorkingDirectory=", Doubled(dir));
    PlainIsCode(DirLine(dir));
  }

  /** The lines that count, of a unit whose parameters have no line ends. */
  function Settings(exe: string, sess: string, workDir: string): seq<string> {
    Head(sess)[1..] + [ExecLine(exe, sess)] + ([DirLine(workDir), RESTART] + TAIL)
  }

  lemma CodeOf(first: string, head: seq<string>, exec: string, dir: string, restart: string, tail: seq<string>)
    requires Unbroken(first) && Comment(first) && AllPlain(head) && Plain(exec) && Plain(restart) && AllPlain(tail)
    requires Unbroken(dir) && !Comment(dir)
    ensures var lines := [first] + head + [exec, dir, restart] + tail;
            Code(Split(Feeds(Join(lines, "\n")), '\n')) == head + [exec] + ([dir, restart] + tail)
  {
    var rest := head + [exec] + ([dir, restart] + tail);
    var lines := [first] + head + [exec, dir, restart] + tail;
    assert lines == [first] + rest;
    forall i | 0 <= i < |rest| ensures Unbroken(rest[i]) && !Comment(rest[i]) {
      InOneOf(head, exec, dir, restart, tail, i);
      if Plain(rest[i]) {
        PlainIsCode(rest[i]);
      }
    }
    LinesRead(lines);
    assert lines[1..] == rest;
    CodeKeeps(rest, []);
    assert rest + [] == rest;
  }

  lemma InOneOf(head: seq<string>, exec: string, dir: string, restart: string, tail: seq<string>, i: nat)
    requires AllPlain(head) && Plain(exec) && Plain(restart) && AllPlain(tail)
    requires i < |head| + 3 + |tail|
    ensures var x := (head + [exec] + ([dir, restart] + tail))[i]; x == dir || Plain(x)
  {}

  lemma CodeLines(exe: string, sess: string, workDir: string)
    requires IsSessionName(sess) && Unbroken(exe) && Unbroken(workDir)
    ensures Code(Split(Feeds(SystemdUnit(exe, sess, workDir)), '\n')) == Settings(exe, sess, workDir)
  {
    MarkerLine();
    HeadPlain(sess);
    TailPlain();
    ExecPlain(exe, sess);
    DirUnbroken(workDir);
    assert Head(sess) == ["# " + MARKER] + Head(sess)[1..];
    CodeOf("# " + MARKER, Head(sess)[1..], ExecLine(exe, sess), DirLine(workDir), RESTART, TAIL);
  }

  /** A directory that ends in a backslash takes the next line into its own. */
  function DirLines(workDir: string): seq<string> {
    var line := DirLine(workDir);
    if Continues(line) then [line[..|line| - 1] + " " + RESTART] else [line, RESTART]
  }

  lemma LogicalLines(exe: string, sess: string, workDir: string)
    requires IsSessionName(sess) && Unbroken(exe)
    ensures Logical(Settings(exe, sess, workDir))
         == Head(sess)[1..] + [ExecLine(exe, sess)] + (DirLines(workDir) + TAIL)
  {
    HeadPlain(sess);
    TailPlain();
    ExecPlain(exe, sess);
    LogicalKeeps(Head(sess)[1..] + [ExecLine(exe, sess)], [DirLine(workDir), RESTART] + TAIL);
    LogicalDir(DirLine(workDir), RESTART, TAIL);
  }

  lemma LogicalDir(line: string, restart: string, tail: seq<string>)
    requires Plain(restart) && restart != "" && restart[|restart| - 1] != '\\' && AllPlain(tail)
    ensures Logical([line, restart] + tail)
         == (if Continues(line) then [line[..|line| - 1] + " " + restart] else [line, restart]) + tail
  {
    LogicalKeeps(tail, []);
    assert tail + [] == tail && tail + Logical([]) == tail;
    if Continues(line) {
      LogicalJoined(line, restart, tail);
    } else {
      LogicalApart(line, restart, tail);
    }
  }

  lemma LogicalApart(line: string, restart: string, tail: seq<string>)
    requires !Continues(line) && !Continues(restart) && Logical(tail) == tail
    ensures Logical([line, restart] + tail) == [line, restart] + tail
  {
    LogicalStep(restart, tail);
    LogicalStep(line, [restart] + tail);
    assert [line, restart] + tail == [line] + ([restart] + tail);
  }

  lemma LogicalJoined(line: string, restart: string, tail: seq<string>)
    requires Continues(line) && restart != "" && !Continues(restart) && restart[|restart| - 1] != '\\'
    requires Logical(tail) == tail
    ensures Logical([line, restart] + tail) == [line[..|line| - 1] + " " + restart] + tail
  {
    var joined := line[..|line| - 1] + " " + restart;
    EndOfLine(line[..|line| - 1] + " ", restart);
    LogicalStep(joined, tail);
    assert ([line, restart] + tail)[2..] == tail;
  }

  lemma ReadSettings(exe: string, sess: string, workDir: string) returns (r: Reading)
    requires IsSessionName(sess) && Unbroken(exe) && Unbroken(workDir)
    ensures ReadUnit(SystemdUnit(exe, sess, workDir)) == Done(r)
    ensures r.commands == [Runnable(ReadCommand(Words([exe, "daemon", sess])))]
    ensures r.dir.Some? && r.dir.value == workDir ==> PlainDir(workDir)
    ensures PlainDir(workDir) ==> r.dir == Some(workDir)
  {
    CodeLines(exe, sess, workDir);
    LogicalLines(exe, sess, workDir);
    var served := START.(section := "[Service]");
    TakeHead(sess);
    var ran := TakeExec(served, exe, sess);
    var placed := TakeDir(ran, workDir);
    TakeTail(placed);
    r := Fold(Take, placed, TAIL);
    FoldParts(Take, START, Head(sess)[1..], ExecLine(exe, sess), DirLines(workDir), TAIL);
  }

  lemma FoldParts(step: (Reading, string) -> Reading, r: Reading,
                  a: seq<string>, line: string, b: seq<string>, c: seq<string>)
    ensures Fold(step, r, a + [line] + (b + c)) == Fold(step, Fold(step, step(Fold(step, r, a), line), b), c)
  {
    FoldConcat(step, r, a + [line], b + c);
    FoldConcat(step, r, a, [line]);
    OneLine(step, Fold(step, r, a), line);
    FoldConcat(step, step(Fold(step, r, a), line), b, c);
  }

  lemma TakeExec(r: Reading, exe: string, sess: string) returns (t: Reading)
    requires r == START.(section := "[Service]")
    ensures t == Take(r, ExecLine(exe, sess)) && t.section == "[Service]" && t.dir.None?
    ensures t.commands == [Runnable(ReadCommand(Words([exe, "daemon", sess])))]
  {
    var args := [exe, "daemon", sess];
    WordsEnds(args);
    var v := TakeAssignment(r, EXEC, Words(args));
    t := Take(r, ExecLine(exe, sess));
  }

  lemma TakeDir(r: Reading, workDir: string) returns (t: Reading)
    requires r.section == "[Service]" && r.dir.None? && Unbroken(workDir)
    ensures t == Fold(Take, r, DirLines(workDir)) && t.section == "[Service]" && t.commands == r.commands
    ensures t.dir.Some? && t.dir.value == workDir ==> PlainDir(workDir)
    ensures PlainDir(workDir) ==> t.dir == Some(workDir)
  {
    DirLineContinues(workDir);
    t := Fold(Take, r, DirLines(workDir));
    if Continues(workDir) {
      TakeLongDir(r, workDir);
    } else {
      TakeShortDir(r, workDir);
    }
  }

  lemma TakeShortDir(r: Reading, workDir: string)
    requires r.section == "[Service]" && r.dir.None? && Unbroken(workDir) && !Continues(workDir)
    ensures var t := Fold(Take, r, DirLines(workDir));
            && t.section == "[Service]" && t.commands == r.commands
            && (t.dir.Some? && t.dir.value == workDir ==> PlainDir(workDir))
            && (PlainDir(workDir) ==> t.dir == Some(workDir))
  {
    var v, placed := TakeDirLine(r, workDir);
    DirRead(v, workDir);
    TakeRestart(placed);
    DirLineContinues(workDir);
    TwoLines(Take, r, DirLine(workDir), RESTART);
  }

  lemma TakeDirLine(r: Reading, workDir: string) returns (v: string, placed: Reading)
    requires r.section == "[Service]"
    ensures placed == r.(dir := ReadDir(v)) == Take(r, DirLine(workDir))
    ensures v != "" ==> !Blank(v[|v| - 1])
    ensures workDir != "" && !Blank(workDir[0]) && !Blank(workDir[|workDir| - 1]) ==> v == Doubled(workDir)
  {
    if workDir != "" {
      DoubledEnd(workDir);
    }
    DoubledHead(workDir);
    v := TakeAssignment(r, DIR, Doubled(workDir));
    placed := Take(r, DirLine(workDir));
  }

  lemma DirRead(v: string, workDir: string)
    requires Unbroken(workDir) && !Continues(workDir)
    requires v != "" ==> !Blank(v[|v| - 1])
    requires workDir != "" && !Blank(workDir[0]) && !Blank(workDir[|workDir| - 1]) ==> v == Doubled(workDir)
    ensures ReadDir(v) == Some(workDir) <==> PlainDir(workDir)
  {
    LastRead(v);
    DoubledIsRead(workDir);
  }

  lemma DoubledHead(s: string)
    ensures s != "" ==> Doubled(s) != "" && Doubled(s)[0] == s[0]
  {}

  lemma TakeLongDir(r: Reading, workDir: string)
    requires r.section == "[Service]" && r.dir.None? && Continues(workDir)
    ensures var t := Fold(Take, r, DirLines(workDir));
            t.section == "[Service]" && t.commands == r.commands && t.dir != Some(workDir)
  {
    DirLineContinues(workDir);
    DoubledEnd(workDir);
    var shorter := workDir[..|workDir| - 1];
    var value := Doubled(shorter) + (" " + RESTART);
    assert DirLine(shorter) + " " + RESTART == DIR + "=" + value;
    assert RESTART[13] == 's' && |RESTART| == 14;
    EndOfLine(Doubled(shorter) + " ", RESTART);
    assert value == Doubled(shorter) + " " + RESTART;
    TakeValue(r, value, workDir);
    OneLine(Take, r, DIR + "=" + value);
  }

  /** The directory read ends like the value. */
  lemma TakeValue(r: Reading, value: string, dir: string)
    requires r.section == "[Service]" && value != "" && !Blank(value[|value| - 1])
    requires dir != "" && dir[|dir| - 1] != value[|value| - 1]
    ensures var t := Take(r, DIR + "=" + value);
            t.section == "[Service]" && t.commands == r.commands && t.dir != Some(dir)
  {
    var v := TakeAssignment(r, DIR, value);
    AssignDir(r, v);
    EndsOtherwise(v, dir);
  }

  lemma EndsOtherwise(v: string, dir: string)
    requires v != "" && dir != "" && dir[|dir| - 1] != v[|v| - 1]
    ensures ReadDir(v) != Some(dir)
  {
    LastRead(v);
  }

  lemma AssignDir(r: Reading, v: string)
    ensures Assign(r, DIR, v) == r.(dir := ReadDir(v))
  {
    assert DIR[0] == 'W' && EXEC[0] == 'E';
  }

  /** Read as systemd reads unit files, the unit has the program run with its
      arguments in its directory if and only if both paths are plain. */
  lemma UnitRunsIffPlain(exe: string, sess: string, workDir: string)
    requires IsSessionName(sess)
    ensures ReadUnit(SystemdUnit(exe, sess, workDir)) == Some(Service([exe, "daemon", sess], workDir))
       <==> PlainPath(exe) && PlainDir(workDir)
  {
    ReadIsUnbroken(SystemdUnit(exe, sess, workDir));
    PlainIsUnbroken(exe);
    if Unbroken(exe) && Unbroken(workDir) {
      var r := ReadSettings(exe, sess, workDir);
      assert [exe, "daemon", sess] == [exe] + ["daemon", sess];
      CommandIffPlain(exe, ["daemon", sess]);
    } else {
      assert [exe, "daemon", sess][0] == exe;
    }
  }

  lemma PlainIsUnbroken(exe: string)
    ensures Executable(exe) ==> Unbroken(exe)
  {
    if Executable(exe) {
      forall c <- exe ensures Safe(c) {
      }
    }
  }

  // ---------------------------------------------------------------- units that do not run

  /** Paths that cannot be given: with a "$", a line end, another control character,
      an apostrophe, a backslash, or a prefix. */
  lemma PathsThatDoNotRun(exe: string, sess: string, workDir: string)
    requires exe in ["/a$b", "/a\nb", "/a\tb", "/home/o'brien/rysh", "/a\\b", "-/a"] && IsSessionName(sess)
    ensures ReadUnit(SystemdUnit(exe, sess, workDir)) != Some(Service([exe, "daemon", sess], workDir))
  {
    NotPlainPaths();
    DoesNotRun(exe, sess, workDir);
  }

  lemma DoesNotRun(exe: string, sess: string, workDir: string)
    requires IsSessionName(sess) && !(PlainPath(exe) && PlainDir(workDir))
    ensures ReadUnit(SystemdUnit(exe, sess, workDir)) != Some(Service([exe, "daemon", sess], workDir))
  {
    UnitRunsIffPlain(exe, sess, workDir);
  }

  lemma NotPlainPaths()
    ensures !PlainPath("/a$b") && !PlainPath("/a\nb") && !PlainPath("/a\tb")
    ensures !PlainPath("/home/o'brien/rysh") && !PlainPath("/a\\b") && !PlainPath("-/a")
  {
    NotPlainAt("/a$b", 2, '$');
    NotPlainAt("/a\nb", 2, '\n');
    NotPlainAt("/a\tb", 2, '\t');
    NotPlainAt("/home/o'brien/rysh", 7, '\'');
    NotPlainAt("/a\\b", 2, '\\');
    assert "-/a"[0] == '-';
  }

  lemma NotPlainAt(exe: string, i: nat, c: char)
    requires i < |exe| && exe[i] == c && (!Safe(c) || c == '$')
    ensures !PlainPath(exe)
  {}

  /** Directories that are not read back: with a line end, a blank or a backslash at the end. */
  lemma DirsThatAreNotRead(exe: string, sess: string, workDir: string)
    requires workDir in [RESET, "/w ", "/w\\"] && IsSessionName(sess)
    ensures ReadUnit(SystemdUnit(exe, sess, workDir)) != Some(Service([exe, "daemon", sess], workDir))
  {
    NotPlainDirs();
    DoesNotRun(exe, sess, workDir);
  }

  lemma NotPlainDirs()
    ensures !PlainDir(RESET) && !PlainDir("/w ") && !PlainDir("/w\\")
  {
    assert RESET[2] == '\n' && "/w "[2] == ' ';
    var w := "/w\\";
    assert w[2] == '\\' && w[..2] == "/w" && !Continues("/w");
  }

  /** A directory whose second line is an empty ExecStart. */
  const RESET := "/w\n" + (EXEC + "=")

  function ResetLines(exe: string, sess: string): seq<string> {
    Head(sess)[1..] + [ExecLine(exe, sess)] + ([DIR + "=/w", EXEC + "="] + ([RESTART] + TAIL))
  }

  /** It takes the command back: nothing is run at all. */
  lemma DirectoryTakesCommandBack(exe: string, sess: string)
    requires Unbroken(exe) && IsSessionName(sess)
    ensures ReadUnit(SystemdUnit(exe, sess, RESET)) == None
  {
    TwoDirLines(exe, sess);
    MarkerLine();
    ResetLinesPlain(exe, sess);
    PlainLines("# " + MARKER, ResetLines(exe, sess));
    NoCommandLeft(exe, sess);
  }

  lemma ResetLinesPlain(exe: string, sess: string)
    requires Unbroken(exe) && IsSessionName(sess)
    ensures AllPlain(ResetLines(exe, sess))
  {
    HeadPlain(sess);
    TailPlain();
    ExecPlain(exe, sess);
    ShortLines();
    AllPlainConcat(Head(sess)[1..], [ExecLine(exe, sess)]);
    AllPlainConcat([RESTART], TAIL);
    AllPlainConcat([DIR + "=/w", EXEC + "="], [RESTART] + TAIL);
    AllPlainConcat(Head(sess)[1..] + [ExecLine(exe, sess)], [DIR + "=/w", EXEC + "="] + ([RESTART] + TAIL));
  }

  lemma AllPlainConcat(a: seq<string>, b: seq<string>)
    requires AllPlain(a) && AllPlain(b)
    ensures AllPlain(a + b)
  {}

  lemma ShortLines()
    ensures Plain(DIR + "=/w") && Plain(EXEC + "=")
  {}

  lemma TwoDirLines(exe: string, sess: string)
    ensures SystemdUnit(exe, sess, RESET) == Join(["# " + MARKER] + ResetLines(exe, sess), "\n")
  {
    var first, h := "# " + MARKER, Head(sess)[1..];
    ResetLine();
    assert Head(sess) == [first] + h;
    TwoLinesForOne(first, h, ExecLine(exe, sess), DIR + "=/w", EXEC + "=", RESTART, TAIL);
  }

  lemma ResetLine()
    ensures DirLine(RESET) == (DIR + "=/w") + "\n" + (EXEC + "=")
  {
    assert '%' !in "/w\n" && '%' !in EXEC && '%' !in "=";
    NoPercent(RESET);
    Rejoin(DIR + "=", "/w", EXEC + "=");
  }

  lemma Rejoin(a: string, b: string, c: string)
    ensures a + (b + "\n" + c) == (a + b) + "\n" + c
  {}

  lemma TwoLinesForOne(first: string, h: seq<string>, exec: string, a: string, b: string,
                       restart: string, tail: seq<string>)
    ensures Join([first] + h + [exec, a + "\n" + b, restart] + tail, "\n")
         == Join([first] + (h + [exec] + ([a, b] + ([restart] + tail))), "\n")
  {
    var before, after := [first] + h + [exec], [restart] + tail;
    SplitLine(before, a, b, after);
    assert [first] + h + [exec, a + "\n" + b, restart] + tail == before + [a + "\n" + b] + after;
    assert [first] + (h + [exec] + ([a, b] + after)) == before + [a, b] + after;
  }

  lemma {:induction false} NoPercent(s: string)
    ensures '%' !in s ==> Doubled(s) == s
  {
    if s != "" {
      NoPercent(s[1..]);
      assert s == [s[0]] + s[1..];
    }
  }

  lemma SplitLine(before: seq<string>, a: string, b: string, after: seq<string>)
    requires before != [] && after != []
    ensures Join(before + [a + "\n" + b] + after, "\n") == Join(before + [a, b] + after, "\n")
  {
    JoinConcat(before + [a + "\n" + b], after, "\n");
    JoinConcat(before, [a + "\n" + b], "\n");
    JoinConcat(before + [a, b], after, "\n");
    JoinConcat(before, [a, b], "\n");
    JoinConcat([a], [b], "\n");
    assert [a] + [b] == [a, b];
  }

  lemma PlainLines(first: string, rest: seq<string>)
    requires Unbroken(first) && Comment(first) && AllPlain(rest)
    ensures Logical(Code(Split(Feeds(Join([first] + rest, "\n")), '\n'))) == rest
  {
    forall i | 0 <= i < |rest| ensures !Comment(rest[i]) {
      PlainIsCode(rest[i]);
    }
    LinesRead([first] + rest);
    assert ([first] + rest)[1..] == rest && Code([first] + rest) == Code(rest);
    CodeKeeps(rest, []);
    LogicalKeeps(rest, []);
    assert rest + [] == rest && rest + Code([]) == rest && rest + Logical([]) == rest;
  }

  lemma NoCommandLeft(exe: string, sess: string)
    requires Unbroken(exe) && IsSessionName(sess)
    ensures Done(Fold(Take, START, ResetLines(exe, sess))) == None
  {
    var served := START.(section := "[Service]");
    TakeHead(sess);
    var ran := TakeExec(served, exe, sess);
    var back := TakeBack(ran);
    TakeRestart(back);
    TakeTail(back);
    FoldParts(Take, START, Head(sess)[1..], ExecLine(exe, sess), [DIR + "=/w", EXEC + "="], [RESTART] + TAIL);
    FoldConcat(Take, back, [RESTART], TAIL);
    OneLine(Take, back, RESTART);
  }

  lemma TakeBack(r: Reading) returns (t: Reading)
    requires r.section == "[Service]"
    ensures t == Fold(Take, r, [DIR + "=/w", EXEC + "="]) && t.section == "[Service]" && t.commands == []
  {
    assert DIR + "=/w" == DIR + "=" + "/w";
    var d := TakeAssignment(r, DIR, "/w");
    AssignDir(r, d);
    var placed := r.(dir := ReadDir(d));
    assert EXEC + "=" == EXEC + "=" + "";
    var v := TakeAssignment(placed, EXEC, "");
    TwoLines(Take, r, DIR + "=/w", EXEC + "=");
    t := placed.(commands := []);
  }
}
