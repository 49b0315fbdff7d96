/** The two escapers of the service files (cmd/rysh/assistant_profile.go and
    cmd/rysh/service_cmd.go), and the readers they are written for: the
    character data of a property list, and an ExecStart line of systemd. */
module Escaping {
  import opened Text

  /** What a reader takes off the front of its input. */
  datatype Read = Malformed | Got(text: string, rest: string)

  function Push(c: char, r: Read): Read {
    match r case Malformed => Malformed case Got(text, rest) => Got([c] + text, rest)
  }

  // ---------------------------------------------------------------- XML

  function Entity(c: char): string {
    match c
    case '&' => "&amp;" case '<' => "&lt;" case '>' => "&gt;" case '"' => "&quot;" case '\'' => "&apos;"
    case _ => [c]
  }

  function XmlEscape(s: string): string {
    if s == "" then "" else Entity(s[0]) + XmlEscape(s[1..])
  }

  /** The reference that opens s, as section 4.6 of XML 1.0 predefines five: the
      character it stands for, and how long it is. */
  function Reference(s: string): Option<(char, nat)> {
    if HasPrefix(s, "&amp;") then Some(('&', 5))
    else if HasPrefix(s, "&lt;") then Some(('<', 4))
    else if HasPrefix(s, "&gt;") then Some(('>', 4))
    else if HasPrefix(s, "&quot;") then Some(('"', 6))
    else if HasPrefix(s, "&apos;") then Some(('\'', 6))
    else None
  }

  /** Character data, up to the markup that ends it. */
  function ReadData(x: string): Read
    decreases |x|
  {
    if x == "" || x[0] == '<' then Got("", x)
    else if x[0] != '&' then Push(x[0], ReadData(x[1..]))
    else match Reference(x)
      case Some(r) => if 0 < r.1 <= |x| then Push(r.0, ReadData(x[r.1..])) else Malformed
      case None => Malformed
  }

  lemma ReadEntity(c: char, x: string)
    ensures ReadData(Entity(c) + x) == Push(c, ReadData(x))
  {
    var e := Entity(c);
    var y := e + x;
    assert y[|e|..] == x && HasPrefix(y, e) && y[0] == e[0];
    assert |e| > 1 ==> y[1] == e[1] && y[2] == e[2];
    match c
    case '&' => assert Reference(y) == Some(('&', 5));
    case '<' =>
      assert "&amp;"[1] == 'a';
      assert Reference(y) == Some(('<', 4));
    case '>' =>
      assert "&amp;"[1] == 'a' && "&lt;"[1] == 'l';
      assert Reference(y) == Some(('>', 4));
    case '"' =>
      assert "&amp;"[1] == 'a' && "&lt;"[1] == 'l' && "&gt;"[1] == 'g';
      assert Reference(y) == Some(('"', 6));
    case '\'' =>
      assert "&amp;"[2] == 'm' && "&lt;"[1] == 'l' && "&gt;"[1] == 'g' && "&quot;"[1] == 'q';
      assert Reference(y) == Some(('\'', 6));
    case _ =>
      assert y[0] == c && y[1..] == x;
  }

  /** A reader of the data gets back every string, and stops where it stopped. */
  lemma {:induction false} XmlRoundTrip(s: string, rest: string)
    requires rest == "" || rest[0] == '<'
    ensures ReadData(XmlEscape(s) + rest) == Got(s, rest)
  {
    if s == "" {
      assert XmlEscape(s) + rest == rest;
    } else {
      assert XmlEscape(s) + rest == Entity(s[0]) + (XmlEscape(s[1..]) + rest);
      ReadEntity(s[0], XmlEscape(s[1..]) + rest);
      XmlRoundTrip(s[1..], rest);
    }
  }

  lemma Grouped(a: string, b: string, c: string)
    ensures a + b + c == a + (b + c)
  {}

  lemma HeadOfBoth(a: string, b: string)
    requires a != ""
    ensures a + b != "" && (a + b)[0] == a[0] && (a + b)[1..] == a[1..] + b
  {}

  lemma {:induction false} XmlEscapeConcat(a: string, b: string)
    ensures XmlEscape(a + b) == XmlEscape(a) + XmlEscape(b)
  {
    if a == "" {
      assert a + b == b;
    } else {
      XmlEscapeConcat(a[1..], b);
      HeadOfBoth(a, b);
      Grouped(Entity(a[0]), XmlEscape(a[1..]), XmlEscape(b));
    }
  }

  /** The five references, every other character as it is, one after the other. */
  lemma XmlEscapeIs(a: string, b: string, c: char)
    ensures XmlEscape(a + b) == XmlEscape(a) + XmlEscape(b)
    ensures XmlEscape([c]) ==
              if c == '&' then "&amp;" else if c == '<' then "&lt;" else if c == '>' then "&gt;"
              else if c == '"' then "&quot;" else if c == '\'' then "&apos;" else [c]
  {
    XmlEscapeConcat(a, b);
    assert [c][1..] == [];
  }

  const OPEN := "\t\t<string>"
  const CLOSE := "</string>\n"
  const END := "\t</array>\n"

  /** The ProgramArguments of the agent, one element an argument. */
  function ProgramArguments(args: seq<string>): string {
    if args == [] then END else OPEN + XmlEscape(args[0]) + CLOSE + ProgramArguments(args[1..])
  }

  function ReadArguments(x: string): (args: Option<seq<string>>)
    decreases |x|
  {
    if HasPrefix(x, END) then Some([])
    else if !HasPrefix(x, OPEN) then None
    else match ReadData(x[|OPEN|..])
      case Malformed => None
      case Got(text, rest) =>
        if HasPrefix(rest, CLOSE) && |rest| <= |x| then Prepend(text, ReadArguments(rest[|CLOSE|..])) else None
  }

  function Prepend(a: string, args: Option<seq<string>>): Option<seq<string>> {
    match args case None => None case Some(l) => Some([a] + l)
  }

  /** The agent starts with the arguments the profile was made for, whatever is in them. */
  lemma {:induction false} ArgumentsRoundTrip(args: seq<string>, rest: string)
    ensures ReadArguments(ProgramArguments(args) + rest) == Some(args)
  {
    if args == [] {
      NoArgument(rest);
    } else {
      OneArgument(args[0], ProgramArguments(args[1..]) + rest);
      ArgumentsSplit(args, rest);
      ArgumentsRoundTrip(args[1..], rest);
      assert [args[0]] + args[1..] == args;
    }
  }

  lemma NoArgument(rest: string)
    ensures ReadArguments(ProgramArguments([]) + rest) == Some([])
  {
    assert HasPrefix(END + rest, END);
  }

  lemma ArgumentsSplit(args: seq<string>, rest: string)
    requires args != []
    ensures ProgramArguments(args) + rest
            == OPEN + (XmlEscape(args[0]) + (CLOSE + (ProgramArguments(args[1..]) + rest)))
  {
    Regroup(OPEN, XmlEscape(args[0]), CLOSE, ProgramArguments(args[1..]), rest);
  }

  lemma Regroup(a: string, b: string, c: string, d: string, e: string)
    ensures a + b + c + d + e == a + (b + (c + (d + e)))
  {}

  lemma OneArgument(a: string, tail: string)
    ensures ReadArguments(OPEN + (XmlEscape(a) + (CLOSE + tail))) == Prepend(a, ReadArguments(tail))
  {
    var after := CLOSE + tail;
    var x := OPEN + (XmlEscape(a) + after);
    assert x[|OPEN|..] == XmlEscape(a) + after && HasPrefix(x, OPEN);
    assert OPEN[1] == '\t' && END[1] == '<' && x[1] == OPEN[1];
    assert !HasPrefix(x, END);
    assert CLOSE[0] == '<' && after[0] == CLOSE[0];
    XmlRoundTrip(a, after);
    assert HasPrefix(after, CLOSE) && after[|CLOSE|..] == tail;
  }

  // ---------------------------------------------------------------- systemd

  function Escaped(c: char): string {
    match c
    case '\\' => "\\\\" case '"' => "\\\"" case '%' => "%%" case '$' => "$$"
    case _ => [c]
  }

  function EscapeAll(s: string): string {
    if s == "" then "" else Escaped(s[0]) + EscapeAll(s[1..])
  }

  function SystemdQuote(s: string): string {
    "\"" + EscapeAll(s) + "\""
  }

  /** A double-quoted word, after its opening quote: an escape or a doubled "%"
      stands for one character; a specifier and any other escape do not stand for
      themselves. Nor does a variable, and a doubled "$" stands for one, where
      variables are substituted. */
  function ReadQuoted(x: string, variables: bool): (r: Read)
    ensures r.Got? ==> |r.rest| < |x|
    decreases |x|
  {
    if x == "" then Malformed
    else if x[0] == '"' then Got("", x[1..])
    else if x[0] !in {'\\', '%', '$'} || (x[0] == '$' && !variables) then Push(x[0], ReadQuoted(x[1..], variables))
    else if |x| >= 2 && (x[1] == x[0] || (x[0] == '\\' && x[1] == '"')) then Push(x[1], ReadQuoted(x[2..], variables))
    else Malformed
  }

  lemma {:induction false} EscapeConcat(a: string, b: string)
    ensures EscapeAll(a + b) == EscapeAll(a) + EscapeAll(b)
  {
    if a == "" {
      assert a + b == b;
    } else {
      EscapeConcat(a[1..], b);
      HeadOfBoth(a, b);
      Grouped(Escaped(a[0]), EscapeAll(a[1..]), EscapeAll(b));
    }
  }

  /** A backslash before a backslash and a quote, a percent and a dollar sign doubled,
      every other character as it is, between two quotes. */
  lemma SystemdQuoteIs(a: string, b: string, c: char)
    ensures SystemdQuote(a) == "\"" + EscapeAll(a) + "\"" && EscapeAll(a + b) == EscapeAll(a) + EscapeAll(b)
    ensures EscapeAll([c]) ==
              if c == '\\' then "\\\\" else if c == '"' then "\\\"" else if c == '%' then "%%"
              else if c == '$' then "$$" else [c]
  {
    EscapeConcat(a, b);
    assert [c][1..] == [];
  }

  lemma ReadEscaped(c: char, x: string, variables: bool)
    ensures ReadQuoted(Escaped(c) + x, variables)
         == if c == '$' && !variables then Push('$', Push('$', ReadQuoted(x, variables)))
            else Push(c, ReadQuoted(x, variables))
  {
    var e := Escaped(c);
    assert (e + x)[|e|..] == x;
    if c == '$' {
      assert (e + x)[1..] == ['$'] + x && (['$'] + x)[1..] == x;
    }
  }

  /** "$" doubled. */
  function Dollars(s: string): string {
    if s == "" then "" else (if s[0] == '$' then "$$" else [s[0]]) + Dollars(s[1..])
  }

  lemma EscapedHead(s: string, rest: string)
    requires s != ""
    ensures EscapeAll(s) + "\"" + rest == Escaped(s[0]) + (EscapeAll(s[1..]) + "\"" + rest)
  {}

  /** Where variables are substituted, the word is what was quoted, and the first
      quote that is not escaped is the closing one. */
  lemma {:induction false} QuoteRoundTrip(s: string, rest: string)
    ensures ReadQuoted(EscapeAll(s) + "\"" + rest, true) == Got(s, rest)
  {
    if s == "" {
      NothingQuoted(rest, true);
    } else {
      EscapedHead(s, rest);
      ReadEscaped(s[0], EscapeAll(s[1..]) + "\"" + rest, true);
      QuoteRoundTrip(s[1..], rest);
    }
  }

  /** Where none is, its "$" stay doubled. */
  lemma {:induction false} PathRoundTrip(s: string, rest: string)
    ensures ReadQuoted(EscapeAll(s) + "\"" + rest, false) == Got(Dollars(s), rest)
  {
    if s == "" {
      NothingQuoted(rest, false);
    } else {
      EscapedHead(s, rest);
      ReadEscaped(s[0], EscapeAll(s[1..]) + "\"" + rest, false);
      PathRoundTrip(s[1..], rest);
      PushTwice(Dollars(s[1..]), rest);
    }
  }

  lemma PushTwice(text: string, rest: string)
    ensures Push('$', Push('$', Got(text, rest))) == Got("$$" + text, rest)
  {
    assert ['$'] + (['$'] + text) == "$$" + text;
  }

  lemma NothingQuoted(rest: string, variables: bool)
    ensures ReadQuoted(EscapeAll("") + "\"" + rest, variables) == Got("", rest)
  {
    var x := "\"" + rest;
    assert EscapeAll("") + "\"" + rest == x && x[1..] == rest;
  }

  /** Doubling changes exactly the texts with a "$". */
  lemma {:induction false} DollarsIff(s: string)
    ensures Dollars(s) == s <==> '$' !in s
    ensures |Dollars(s)| >= |s|
  {
    if s != "" {
      DollarsIff(s[1..]);
      assert s == [s[0]] + s[1..];
      assert '$' !in s ==> s[0] != '$';
      if '$' in s {
        LongerByDollars(s);
      }
    }
  }

  lemma {:induction false} LongerByDollars(s: string)
    ensures |Dollars(s)| >= |s| && ('$' in s ==> |Dollars(s)| > |s|)
  {
    if s != "" {
      LongerByDollars(s[1..]);
    }
  }

  /** Cut short, a quoted word is never complete. */
  lemma {:induction false} Unclosed(s: string, variables: bool)
    ensures ReadQuoted(EscapeAll(s), variables) == Malformed
  {
    if s != "" {
      ReadEscaped(s[0], EscapeAll(s[1..]), variables);
      Unclosed(s[1..], variables);
    }
  }

  /** The words of a command line, quoted, with a space between. */
  function Words(args: seq<string>): string {
    if args == [] then ""
    else SystemdQuote(args[0]) + if |args| == 1 then "" else " " + Words(args[1..])
  }

  /** The arguments of a command. */
  function ReadWords(x: string): Option<seq<string>>
    decreases |x|
  {
    if x == "" || x[0] != '"' then None
    else match ReadQuoted(x[1..], true)
      case Malformed => None
      case Got(word, rest) =>
        if rest == "" then Some([word])
        else if rest[0] == ' ' then Prepend(word, ReadWords(rest[1..]))
        else None
  }

  /** A command: no variable is substituted in its first word, the path of the program. */
  function ReadCommand(x: string): Option<seq<string>> {
    if x == "" || x[0] != '"' then None
    else match ReadQuoted(x[1..], false)
      case Malformed => None
      case Got(word, rest) =>
        if rest == "" then Some([word])
        else if rest[0] == ' ' then Prepend(word, ReadWords(rest[1..]))
        else None
  }

  lemma {:induction false} WordsRoundTrip(args: seq<string>)
    requires args != []
    ensures ReadWords(Words(args)) == Some(args)
  {
    if |args| == 1 {
      assert args == [args[0]];
      LastWord(args[0]);
    } else {
      assert Words(args) == SystemdQuote(args[0]) + (" " + Words(args[1..]));
      OneWord(args[0], Words(args[1..]));
      WordsRoundTrip(args[1..]);
      assert [args[0]] + args[1..] == args;
    }
  }

  lemma LastWord(a: string)
    ensures ReadWords(Words([a])) == Some([a])
  {
    var x := Words([a]);
    assert x[0] == '"' && x[1..] == EscapeAll(a) + "\"" + "";
    QuoteRoundTrip(a, "");
  }

  lemma OneWord(a: string, tail: string)
    ensures ReadWords(SystemdQuote(a) + (" " + tail)) == Prepend(a, ReadWords(tail))
  {
    var more := " " + tail;
    var x := SystemdQuote(a) + more;
    assert x[0] == '"' && x[1..] == EscapeAll(a) + "\"" + more;
    QuoteRoundTrip(a, more);
    assert more[0] == ' ' && more[1..] == tail;
  }

  /** The arguments of a command are read back; of the program's path, "$" doubled. */
  lemma CommandRoundTrip(exe: string, args: seq<string>)
    requires args != []
    ensures ReadCommand(Words([exe] + args)) == Some([Dollars(exe)] + args)
  {
    assert ([exe] + args)[1..] == args;
    assert Words([exe] + args) == SystemdQuote(exe) + (" " + Words(args));
    PathThenWords(exe, Words(args));
    WordsRoundTrip(args);
  }

  lemma PathThenWords(exe: string, tail: string)
    ensures ReadCommand(SystemdQuote(exe) + (" " + tail)) == Prepend(Dollars(exe), ReadWords(tail))
  {
    var more := " " + tail;
    var x := SystemdQuote(exe) + more;
    assert x[0] == '"' && x[1..] == EscapeAll(exe) + "\"" + more;
    PathRoundTrip(exe, more);
    assert more[0] == ' ' && more[1..] == tail;
  }
}
