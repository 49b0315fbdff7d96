/** Order-free flags: extractStringFlag and extractBoolFlag (cmd/rysh/main.go)
    and parseBoardSendArgs on top of them (cmd/rysh/board_send_cmd.go). */
module BoardArgs {
  import opened Text

  // ---------------------------------------------------------------- extracting one flag

  /** The first argument that is `name` and has another after it; |args| if none. */
  function FlagAt(args: seq<string>, name: string): (i: nat)
    ensures i <= |args|
    ensures i < |args| ==> args[i] == name && i + 1 < |args|
    ensures forall j | 0 <= j < i && j + 1 < |args| :: args[j] != name
  {
    if |args| < 2 then |args| else if args[0] == name then 0 else 1 + FlagAt(args[1..], name)
  }

  function Rest(args: seq<string>, name: string): seq<string> {
    var i := FlagAt(args, name);
    if i == |args| then args else args[..i] + args[i + 2..]
  }

  function Get(args: seq<string>, name: string): string {
    var i := FlagAt(args, name);
    if i == |args| then "" else args[i + 1]
  }

  method ExtractStringFlag(args: seq<string>, name: string) returns (remaining: seq<string>, value: string)
    ensures remaining == Rest(args, name) && value == Get(args, name)
  {
    for i := 0 to |args|
      invariant forall j | 0 <= j < i && j + 1 < |args| :: args[j] != name
    {
      if args[i] == name && i + 1 < |args| {
        value := args[i + 1];
        remaining := args[..i];
        remaining := remaining + args[i + 2..];
        return;
      }
    }
    return args, "";
  }

  function Without(args: seq<string>, name: string): seq<string> {
    if args == [] then [] else (if args[0] == name then [] else [args[0]]) + Without(args[1..], name)
  }

  method ExtractBoolFlag(args: seq<string>, name: string) returns (remaining: seq<string>, found: bool)
    ensures remaining == Without(args, name) && (found <==> name in args)
  {
    remaining, found := [], false;
    for i := 0 to |args|
      invariant remaining + Without(args[i..], name) == Without(args, name)
      invariant found <==> name in args[..i]
    {
      WithoutNext(args, i, name);
      assert args[..i + 1] == args[..i] + [args[i]];
      if args[i] == name {
        found := true;
      } else {
        remaining := remaining + [args[i]];
      }
    }
    assert args[..|args|] == args;
  }

  lemma WithoutNext(args: seq<string>, i: nat, name: string)
    requires i < |args|
    ensures Without(args[i..], name) == (if args[i] == name then [] else [args[i]]) + Without(args[i + 1..], name)
  {
    assert args[i..][1..] == args[i + 1..];
  }

  function IndexOf(args: seq<string>, want: string): (i: nat)
    ensures i <= |args| && (i < |args| ==> args[i] == want) && want !in args[..i]
  {
    if args == [] || args[0] == want then 0
    else
      var i := IndexOf(args[1..], want);
      assert args[..i + 1] == [args[0]] + args[1..][..i];
      1 + i
  }

  // ---------------------------------------------------------------- the command's arguments

  datatype Sub = Send | Ack | Inbox

  datatype BoardSend = BoardSend(poster: string, sess: string, board: string, to: string, cmdId: string, file: string,
                                 threadId: string, text: string, all: bool, json: bool)

  datatype Outcome =
    | Parsed(b: BoardSend)
    | BadBoard(flag: string) | BadId(id: string)
    | Unexpected(words: seq<string>) | NoRecipient | NoMessage | NotOneId

  /** The checks on ids, whose source is internal/msg. */
  datatype Ids = Ids(validBoard: string -> bool, normalBoard: string -> string, validCmd: string -> bool)

  const EMPTY := BoardSend("", "", "", "", "", "", "", "", false, false)

  /** What is left and learnt once the flags common to all three are taken out. */
  datatype Common = Common(rest: seq<string>, body: seq<string>, sess: string, board: string, poster: string)

  function TakeCommon(args: seq<string>): Common {
    var r1, sess := Rest(args, "--session"), Get(args, "--session");
    TakeFleet(Rest(r1, "--board"), sess, Get(r1, "--board"))
  }

  /** --fleet is looked at only when --board gave nothing. */
  function TakeFleet(args: seq<string>, sess: string, board: string): Common {
    if board == "" then TakePoster(Rest(args, "--fleet"), sess, Get(args, "--fleet"))
    else TakePoster(args, sess, board)
  }

  /** The last flag, and the split at the separator. */
  function TakePoster(args: seq<string>, sess: string, board: string): Common {
    var rest, poster := Rest(args, "--as"), Get(args, "--as");
    var i := IndexOf(rest, "--");
    Common(rest[..i], if i < |rest| then rest[i + 1..] else [], sess, board, poster)
  }

  function SendRest(ids: Ids, b: BoardSend, rest: seq<string>, body: seq<string>): Outcome {
    var r1, to := Rest(rest, "--to"), Get(rest, "--to");
    var r2, id := Rest(r1, "--id"), Get(r1, "--id");
    var r3, file := Rest(r2, "--file"), Get(r2, "--file");
    var r4, thread := Rest(r3, "--thread"), Get(r3, "--thread");
    SendChecks(ids, b.(to := to, cmdId := id, file := file, threadId := thread), r4, body)
  }

  function SendChecks(ids: Ids, b: BoardSend, rest: seq<string>, body: seq<string>): Outcome {
    var text := TrimSpace(Join(body, " "));
    if rest != [] then Unexpected(rest)
    else if b.to == "" then NoRecipient
    else if b.cmdId != "" && !ids.validCmd(b.cmdId) then BadId(b.cmdId)
    else if text == "" && b.file == "" then NoMessage
    else Parsed(b.(text := text))
  }

  function AckRest(ids: Ids, b: BoardSend, rest: seq<string>, body: seq<string>): Outcome {
    AckChecks(ids, b.(text := Get(rest, "--note")), Rest(rest, "--note") + body)
  }

  function AckChecks(ids: Ids, b: BoardSend, words: seq<string>): Outcome {
    if |words| != 1 then NotOneId
    else if !ids.validCmd(words[0]) then BadId(words[0])
    else Parsed(b.(cmdId := words[0]))
  }

  function InboxRest(b: BoardSend, rest: seq<string>, body: seq<string>): Outcome {
    var words := Without(Without(rest, "--all"), "--json");
    if words != [] || body != [] then Unexpected(words + body)
    else Parsed(b.(all := "--all" in rest, json := "--json" in Without(rest, "--all")))
  }

  function Dispatch(ids: Ids, sub: Sub, b: BoardSend, rest: seq<string>, body: seq<string>): Outcome {
    match sub
    case Send => SendRest(ids, b, rest, body)
    case Ack => AckRest(ids, b, rest, body)
    case Inbox => InboxRest(b, rest, body)
  }

  function Started(ids: Ids, sess: string, board: string, poster: string): BoardSend {
    EMPTY.(sess := sess, poster := poster, board := if board == "" then "" else ids.normalBoard(board))
  }

  function ParseRest(ids: Ids, sub: Sub, c: Common): Outcome {
    if c.board != "" && !ids.validBoard(c.board) then BadBoard(c.board)
    else Dispatch(ids, sub, Started(ids, c.sess, c.board, c.poster), c.rest, c.body)
  }

  method ParseBoardSendArgs(ids: Ids, sub: Sub, args: seq<string>) returns (o: Outcome)
    ensures o == ParseRest(ids, sub, TakeCommon(args))
  {
    var b := EMPTY;
    var rest, sess := ExtractStringFlag(args, "--session");
    var boardFlag;
    rest, boardFlag := ExtractStringFlag(rest, "--board");
    if boardFlag == "" {
      rest, boardFlag := ExtractStringFlag(rest, "--fleet");
    }
    b := b.(sess := sess);
    if boardFlag != "" {
      if !ids.validBoard(boardFlag) {
        return BadBoard(boardFlag);
      }
      b := b.(board := ids.normalBoard(boardFlag));
    }
    o := ParsePoster(ids, sub, b, boardFlag, rest);
  }

  method ParsePoster(ids: Ids, sub: Sub, b0: BoardSend, ghost boardFlag: string, args: seq<string>) returns (o: Outcome)
    requires b0 == Started(ids, b0.sess, boardFlag, "")
    requires boardFlag != "" ==> ids.validBoard(boardFlag)
    ensures o == ParseRest(ids, sub, TakePoster(args, b0.sess, boardFlag))
  {
    var rest, poster := ExtractStringFlag(args, "--as");
    var b := b0.(poster := poster);
    var body: seq<string> := [];
    var i := IndexOf(rest, "--");
    if i < |rest| {
      body, rest := rest[i + 1..], rest[..i];
    } else {
      assert rest[..i] == rest;
    }
    assert b == Started(ids, b0.sess, boardFlag, poster);
    assert TakePoster(args, b0.sess, boardFlag) == Common(rest, body, b0.sess, boardFlag, poster);
    o := DispatchSub(ids, sub, b, rest, body);
  }

  method DispatchSub(ids: Ids, sub: Sub, b: BoardSend, rest: seq<string>, body: seq<string>) returns (o: Outcome)
    ensures o == Dispatch(ids, sub, b, rest, body)
  {
    match sub {
      case Send => o := ParseSend(ids, b, rest, body);
      case Ack => o := ParseAck(ids, b, rest, body);
      case Inbox => o := ParseInbox(b, rest, body);
    }
  }

  method ParseSend(ids: Ids, b0: BoardSend, rest0: seq<string>, body: seq<string>) returns (o: Outcome)
    ensures o == SendRest(ids, b0, rest0, body)
  {
    var rest := rest0;
    var to, id, file, thread;
    rest, to := ExtractStringFlag(rest, "--to");
    rest, id := ExtractStringFlag(rest, "--id");
    rest, file := ExtractStringFlag(rest, "--file");
    rest, thread := ExtractStringFlag(rest, "--thread");
    o := CheckSend(ids, b0.(to := to, cmdId := id, file := file, threadId := thread), rest, body);
  }

  method CheckSend(ids: Ids, b: BoardSend, rest: seq<string>, body: seq<string>) returns (o: Outcome)
    ensures o == SendChecks(ids, b, rest, body)
  {
    if |rest| > 0 {
      return Unexpected(rest);
    }
    if b.to == "" {
      return NoRecipient;
    }
    if b.cmdId != "" && !ids.validCmd(b.cmdId) {
      return BadId(b.cmdId);
    }
    var text := TrimSpace(Join(body, " "));
    if text == "" && b.file == "" {
      return NoMessage;
    }
    return Parsed(b.(text := text));
  }

  method ParseAck(ids: Ids, b: BoardSend, rest0: seq<string>, body: seq<string>) returns (o: Outcome)
    ensures o == AckRest(ids, b, rest0, body)
  {
    var rest, note := ExtractStringFlag(rest0, "--note");
    rest := rest + body;
    if |rest| != 1 {
      return NotOneId;
    }
    if !ids.validCmd(rest[0]) {
      return BadId(rest[0]);
    }
    return Parsed(b.(text := note, cmdId := rest[0]));
  }

  method ParseInbox(b: BoardSend, rest0: seq<string>, body: seq<string>) returns (o: Outcome)
    ensures o == InboxRest(b, rest0, body)
  {
    var rest, all := ExtractBoolFlag(rest0, "--all");
    var json;
    rest, json := ExtractBoolFlag(rest, "--json");
    if |rest| > 0 || |body| > 0 {
      return Unexpected(rest + body);
    }
    return Parsed(b.(all := all, json := json));
  }

  // ---------------------------------------------------------------- flags and words

  /** What stands before the separator: a flag with its value, or a word. */
  datatype Arg = Flag(name: string, value: string) | Word(text: string)

  const NAMES: set<string> :=
    {"--session", "--board", "--fleet", "--as", "--to", "--id", "--file", "--thread", "--note"}

  function Parts(a: Arg): seq<string> {
    match a case Flag(name, value) => [name, value] case Word(text) => [text]
  }

  function Flatten(pairs: seq<Arg>): seq<string> {
    if pairs == [] then [] else Parts(pairs[0]) + Flatten(pairs[1..])
  }

  /** The words, in order. */
  function WordsOf(pairs: seq<Arg>): seq<string> {
    if pairs == [] then [] else (if pairs[0].Word? then [pairs[0].text] else []) + WordsOf(pairs[1..])
  }

  function Argv(pairs: seq<Arg>, body: seq<string>): seq<string> {
    Flatten(pairs) + ["--"] + body
  }

  /** The same without a separator, which then has nothing behind it. */
  function Given(pairs: seq<Arg>, separated: bool, body: seq<string>): seq<string> {
    if separated then Argv(pairs, body) else Flatten(pairs)
  }

  /** No value and no word reads as a flag or as the separator. */
  predicate Proper(a: Arg) {
    match a
    case Flag(name, value) => name in NAMES && value !in NAMES && value != "--"
    case Word(text) => text !in NAMES && text != "--"
  }

  predicate Is(a: Arg, name: string) { a.Flag? && a.name == name }

  /** Proper arguments, with each flag once. */
  predicate Sane(pairs: seq<Arg>) {
    && (forall i | 0 <= i < |pairs| :: Proper(pairs[i]))
    && (forall i, j | 0 <= i < j < |pairs| && pairs[i].Flag? :: !Is(pairs[j], pairs[i].name))
  }

  function Lookup(pairs: seq<Arg>, name: string): Option<string> {
    if pairs == [] then None else if Is(pairs[0], name) then Some(pairs[0].value) else Lookup(pairs[1..], name)
  }

  function Drop(pairs: seq<Arg>, name: string): seq<Arg> {
    if pairs == [] then [] else if Is(pairs[0], name) then pairs[1..] else [pairs[0]] + Drop(pairs[1..], name)
  }

  lemma SaneTail(pairs: seq<Arg>)
    requires Sane(pairs) && pairs != []
    ensures Sane(pairs[1..])
  {}

  lemma {:induction false} LookupNone(pairs: seq<Arg>, name: string)
    ensures Lookup(pairs, name).None? <==> forall i | 0 <= i < |pairs| :: !Is(pairs[i], name)
  {
    if pairs != [] {
      LookupNone(pairs[1..], name);
      assert forall i | 0 < i < |pairs| :: pairs[i] == pairs[1..][i - 1];
    }
  }

  lemma {:induction false} LookupIsMember(pairs: seq<Arg>, name: string, value: string)
    requires Sane(pairs)
    ensures Lookup(pairs, name) == Some(value) <==> Flag(name, value) in pairs
  {
    if pairs != [] {
      SaneTail(pairs);
      LookupIsMember(pairs[1..], name, value);
      LookupNone(pairs[1..], name);
      assert forall p :: p in pairs <==> p == pairs[0] || p in pairs[1..];
    }
  }

  lemma {:induction false} DropKeeps(pairs: seq<Arg>, name: string)
    requires Sane(pairs)
    ensures Sane(Drop(pairs, name)) && WordsOf(Drop(pairs, name)) == WordsOf(pairs)
    ensures forall n :: Lookup(Drop(pairs, name), n) == if n == name then None else Lookup(pairs, n)
  {
    if pairs != [] {
      var head, kept := pairs[0], Drop(pairs[1..], name);
      SaneTail(pairs);
      DropKeeps(pairs[1..], name);
      if head.Flag? {
        LookupNone(pairs[1..], head.name);
        LookupNone(kept, head.name);
      }
      if !Is(head, name) {
        SaneCons(head, kept);
        assert ([head] + kept)[1..] == kept;
        forall n {:trigger Lookup(pairs, n)}
          ensures Lookup([head] + kept, n) == if n == name then None else Lookup(pairs, n)
        {
        }
      }
    }
  }

  lemma SaneCons(p: Arg, pairs: seq<Arg>)
    requires Sane(pairs) && Proper(p)
    requires p.Flag? ==> forall i | 0 <= i < |pairs| :: !Is(pairs[i], p.name)
    ensures Sane([p] + pairs)
  {}

  lemma SkipOne(x: string, args: seq<string>, name: string)
    requires x != name
    ensures Rest([x] + args, name) == [x] + Rest(args, name) && Get([x] + args, name) == Get(args, name)
  {
    var all := [x] + args;
    assert all[1..] == args;
    if args != [] {
      var i := FlagAt(args, name);
      if i < |args| {
        assert all[..i + 1] == [x] + args[..i] && all[i + 3..] == args[i + 2..];
      }
    }
  }

  /** Extraction finds a flag wherever it stands, and looks past these arguments
      only when none of them is the flag. */
  lemma {:induction false} ExtractFromPairs(pairs: seq<Arg>, tail: seq<string>, name: string)
    requires Sane(pairs) && name in NAMES
    ensures var args := Flatten(pairs) + tail;
            match Lookup(pairs, name)
            case Some(v) => Rest(args, name) == Flatten(Drop(pairs, name)) + tail && Get(args, name) == v
            case None => Rest(args, name) == Flatten(pairs) + Rest(tail, name) && Get(args, name) == Get(tail, name)
  {
    if pairs == [] {
      assert Flatten(pairs) + tail == tail && Flatten(pairs) + Rest(tail, name) == Rest(tail, name);
    } else {
      var p, rest := pairs[0], Flatten(pairs[1..]) + tail;
      var args := Flatten(pairs) + tail;
      assert args == Parts(p) + rest;
      if Is(p, name) {
        assert args[0] == name && args[1] == p.value && args[..0] + args[2..] == rest;
      } else {
        SaneTail(pairs);
        ExtractFromPairs(pairs[1..], tail, name);
        SkipParts(p, rest, name);
        PrependParts(p, pairs, tail, name);
      }
    }
  }

  lemma SkipParts(p: Arg, args: seq<string>, name: string)
    requires Proper(p) && name in NAMES && !Is(p, name)
    ensures Rest(Parts(p) + args, name) == Parts(p) + Rest(args, name) && Get(Parts(p) + args, name) == Get(args, name)
  {
    match p
    case Flag(n, value) => SkipFlag(n, value, args, name);
    case Word(text) => SkipOne(text, args, name);
  }

  lemma SkipFlag(n: string, value: string, args: seq<string>, name: string)
    requires n != name && value != name
    ensures Rest([n, value] + args, name) == [n, value] + Rest(args, name)
    ensures Get([n, value] + args, name) == Get(args, name)
  {
    Pairwise(n, value, args);
    Pairwise(n, value, Rest(args, name));
    SkipOne(value, args, name);
    SkipOne(n, [value] + args, name);
  }

  lemma Pairwise(a: string, b: string, s: seq<string>)
    ensures [a, b] + s == [a] + ([b] + s)
  {}

  lemma PrependParts(p: Arg, pairs: seq<Arg>, tail: seq<string>, name: string)
    requires pairs != [] && pairs[0] == p && !Is(p, name)
    ensures Parts(p) + (Flatten(pairs[1..]) + Rest(tail, name)) == Flatten(pairs) + Rest(tail, name)
    ensures Parts(p) + (Flatten(Drop(pairs[1..], name)) + tail) == Flatten(Drop(pairs, name)) + tail
  {
    var kept := Drop(pairs[1..], name);
    assert ([p] + kept)[1..] == kept;
    Regroup(Parts(p), Flatten(pairs[1..]), Rest(tail, name));
    Regroup(Parts(p), Flatten(kept), tail);
  }

  lemma Regroup(a: seq<string>, s: seq<string>, t: seq<string>)
    ensures a + (s + t) == (a + s) + t
  {}

  // ---------------------------------------------------------------- what the separator protects

  /** The pairs without those extraction takes, when the body stays out of it. */
  function Remaining(pairs: seq<Arg>): seq<Arg> {
    var p2 := Drop(Drop(pairs, "--session"), "--board");
    var p3 := if Value(pairs, "--board") == "" then Drop(p2, "--fleet") else p2;
    Drop(p3, "--as")
  }

  function Value(pairs: seq<Arg>, name: string): string {
    match Lookup(pairs, name) case Some(v) => v case None => ""
  }

  /** The flag is given before the separator, or cannot be read out of the body. */
  predicate Covered(pairs: seq<Arg>, body: seq<string>, name: string) {
    Lookup(pairs, name).Some? || FlagAt(body, name) == |body|
  }

  predicate BodySafe(pairs: seq<Arg>, body: seq<string>) {
    && Covered(pairs, body, "--session") && Covered(pairs, body, "--board") && Covered(pairs, body, "--as")
    && (Value(pairs, "--board") == "" ==> Covered(pairs, body, "--fleet"))
  }

  lemma SeparatorStep(pairs: seq<Arg>, body: seq<string>, name: string)
    requires Sane(pairs) && name in NAMES
    ensures Rest(Argv(pairs, body), name) == Argv(Drop(pairs, name), BodyAfter(pairs, body, name))
    ensures Get(Argv(pairs, body), name) == if Lookup(pairs, name).Some? then Value(pairs, name) else Get(body, name)
  {
    ArgvShape(pairs, body);
    ExtractFromPairs(pairs, ["--"] + body, name);
    if Lookup(pairs, name).Some? {
      ArgvShape(Drop(pairs, name), body);
    } else {
      SkipSeparator(body, name);
      ArgvShape(pairs, Rest(body, name));
      DropAbsent(pairs, name);
    }
  }

  lemma SkipSeparator(body: seq<string>, name: string)
    requires name in NAMES
    ensures Rest(["--"] + body, name) == ["--"] + Rest(body, name) && Get(["--"] + body, name) == Get(body, name)
  {
    assert "--" !in NAMES;
    SkipOne("--", body, name);
  }

  lemma ArgvShape(pairs: seq<Arg>, body: seq<string>)
    ensures Argv(pairs, body) == Flatten(pairs) + (["--"] + body)
  {}

  lemma {:induction false} DropAbsent(pairs: seq<Arg>, name: string)
    ensures Lookup(pairs, name).None? ==> Drop(pairs, name) == pairs
  {
    if pairs != [] {
      DropAbsent(pairs[1..], name);
    }
  }

  lemma {:induction false} FlattenFree(pairs: seq<Arg>)
    requires Sane(pairs)
    ensures "--" !in Flatten(pairs)
  {
    if pairs != [] {
      SaneTail(pairs);
      FlattenFree(pairs[1..]);
      assert "--" !in NAMES;
    }
  }

  lemma {:induction false} IndexOfConcat(a: seq<string>, want: string, b: seq<string>)
    requires want !in a
    ensures IndexOf(a + [want] + b, want) == |a|
  {
    if a != [] {
      assert (a + [want] + b)[1..] == a[1..] + [want] + b;
      IndexOfConcat(a[1..], want, b);
    }
  }

  lemma SplitAtSeparator(pairs: seq<Arg>, body: seq<string>)
    requires Sane(pairs)
    ensures var args := Argv(pairs, body);
            var i := IndexOf(args, "--");
            i < |args| && args[..i] == Flatten(pairs) && args[i + 1..] == body
  {
    FlattenFree(pairs);
    IndexOfConcat(Flatten(pairs), "--", body);
  }

  /** The body after one extraction. */
  function BodyAfter(pairs: seq<Arg>, body: seq<string>, name: string): seq<string> {
    if Lookup(pairs, name).Some? then body else Rest(body, name)
  }

  lemma BodyShrinks(pairs: seq<Arg>, body: seq<string>, name: string)
    ensures |BodyAfter(pairs, body, name)| <= |body|
    ensures |BodyAfter(pairs, body, name)| == |body| <==> Covered(pairs, body, name)
    ensures Covered(pairs, body, name) ==> BodyAfter(pairs, body, name) == body
  {}

  /** One extraction on the pairs and the body at once. */
  lemma Extracted(pairs: seq<Arg>, body: seq<string>, name: string)
    requires Sane(pairs) && name in NAMES
    ensures Rest(Argv(pairs, body), name) == Argv(Drop(pairs, name), BodyAfter(pairs, body, name))
    ensures Covered(pairs, body, name) ==> Get(Argv(pairs, body), name) == Value(pairs, name)
    ensures Sane(Drop(pairs, name)) && forall n | n != name :: Lookup(Drop(pairs, name), n) == Lookup(pairs, n)
    ensures |BodyAfter(pairs, body, name)| <= |body|
    ensures |BodyAfter(pairs, body, name)| == |body| <==> Covered(pairs, body, name)
    ensures Covered(pairs, body, name) ==> BodyAfter(pairs, body, name) == body
  {
    SeparatorStep(pairs, body, name);
    BodyShrinks(pairs, body, name);
    DropKeeps(pairs, name);
  }

  predicate LastSafe(pairs: seq<Arg>, body: seq<string>, board: string) {
    Covered(pairs, body, "--as") && (board == "" ==> Covered(pairs, body, "--fleet"))
  }

  /** --as, then the split. */
  lemma PosterStep(pairs: seq<Arg>, body: seq<string>, sess: string, board: string)
    requires Sane(pairs)
    ensures var c := TakePoster(Argv(pairs, body), sess, board);
            && |c.body| <= |body| && (|c.body| == |body| <==> Covered(pairs, body, "--as"))
            && (Covered(pairs, body, "--as") ==>
                  c == Common(Flatten(Drop(pairs, "--as")), body, sess, board, Value(pairs, "--as")))
  {
    Extracted(pairs, body, "--as");
    SplitAtSeparator(Drop(pairs, "--as"), BodyAfter(pairs, body, "--as"));
  }

  /** --fleet, when --board gave nothing, then the poster. */
  lemma FleetStep(pairs: seq<Arg>, body: seq<string>, sess: string)
    requires Sane(pairs)
    ensures var c := TakeFleet(Argv(pairs, body), sess, "");
            && |c.body| <= |body| && (|c.body| == |body| <==> LastSafe(pairs, body, ""))
            && (LastSafe(pairs, body, "") ==>
                  c == Common(Flatten(Drop(Drop(pairs, "--fleet"), "--as")), body, sess,
                              Value(pairs, "--fleet"), Value(pairs, "--as")))
  {
    Extracted(pairs, body, "--fleet");
    var p3, b3 := Drop(pairs, "--fleet"), BodyAfter(pairs, body, "--fleet");
    assert Lookup(p3, "--as") == Lookup(pairs, "--as");
    PosterStep(p3, b3, sess, Get(Argv(pairs, body), "--fleet"));
  }

  lemma FleetAndAs(pairs: seq<Arg>, body: seq<string>, sess: string, board: string)
    requires Sane(pairs)
    ensures var c := TakeFleet(Argv(pairs, body), sess, board);
            var left := Drop(if board == "" then Drop(pairs, "--fleet") else pairs, "--as");
            && |c.body| <= |body| && (|c.body| == |body| <==> LastSafe(pairs, body, board))
            && (LastSafe(pairs, body, board) ==>
                  c == Common(Flatten(left), body, sess,
                              if board == "" then Value(pairs, "--fleet") else board, Value(pairs, "--as")))
  {
    if board == "" {
      FleetStep(pairs, body, sess);
    } else {
      PosterStep(pairs, body, sess, board);
    }
  }

  /** For every argv of sane pairs, the separator and a body: the words after "--"
      arrive as they are if and only if each flag all three commands take is
      given before the separator or cannot be read out of the body; and then the
      order of the pairs is gone from everything but what is left over. */
  lemma BodyArrivesIffSafe(pairs: seq<Arg>, body: seq<string>)
    requires Sane(pairs)
    ensures TakeCommon(Argv(pairs, body)).body == body <==> BodySafe(pairs, body)
    ensures BodySafe(pairs, body) ==>
              TakeCommon(Argv(pairs, body))
              == Common(Flatten(Remaining(pairs)), body, Value(pairs, "--session"),
                        if Value(pairs, "--board") == "" then Value(pairs, "--fleet") else Value(pairs, "--board"),
                        Value(pairs, "--as"))
    ensures Sane(Remaining(pairs))
  {
    RemainingLookup(pairs);
    Extracted(pairs, body, "--session");
    var p1, b1 := Drop(pairs, "--session"), BodyAfter(pairs, body, "--session");
    var r1 := Rest(Argv(pairs, body), "--session");
    Extracted(p1, b1, "--board");
    var p2, b2 := Drop(p1, "--board"), BodyAfter(p1, b1, "--board");
    var sess, board := Get(Argv(pairs, body), "--session"), Get(r1, "--board");
    FleetAndAs(p2, b2, sess, board);
    SameValues(pairs, p1, p2);
    if Covered(pairs, body, "--session") && Covered(pairs, body, "--board") {
      assert b2 == body && board == Value(pairs, "--board");
      assert LastSafe(p2, b2, board) <==> BodySafe(pairs, body);
    } else {
      assert |b2| < |body|;
    }
  }

  /** The flags that are gone when the command looks at what is left. */
  predicate TakenByAll(pairs: seq<Arg>, name: string) {
    name in {"--session", "--board", "--as"} || (name == "--fleet" && Value(pairs, "--board") == "")
  }

  lemma RemainingLookup(pairs: seq<Arg>)
    requires Sane(pairs)
    ensures Sane(Remaining(pairs))
    ensures forall n :: Lookup(Remaining(pairs), n) == (if TakenByAll(pairs, n) then None else Lookup(pairs, n))
    ensures WordsOf(Remaining(pairs)) == WordsOf(pairs)
  {
    DropKeeps(pairs, "--session");
    var p1 := Drop(pairs, "--session");
    DropKeeps(p1, "--board");
    var p2 := Drop(p1, "--board");
    DropKeeps(p2, "--fleet");
    DropKeeps(if Value(pairs, "--board") == "" then Drop(p2, "--fleet") else p2, "--as");
  }

  lemma SameValues(pairs: seq<Arg>, p1: seq<Arg>, p2: seq<Arg>)
    requires forall n | n != "--session" :: Lookup(p1, n) == Lookup(pairs, n)
    requires forall n | n != "--board" :: Lookup(p2, n) == Lookup(p1, n)
    ensures Value(p1, "--board") == Value(pairs, "--board") && Lookup(p1, "--board") == Lookup(pairs, "--board")
    ensures Value(p2, "--fleet") == Value(pairs, "--fleet") && Lookup(p2, "--fleet") == Lookup(pairs, "--fleet")
    ensures Value(p2, "--as") == Value(pairs, "--as") && Lookup(p2, "--as") == Lookup(pairs, "--as")
  {}

  /** A message may lose words: `board send --to pane -- tell --as me` sends "tell". */
  lemma BodyCanBeEaten()
    ensures var args := Argv([Flag("--to", "pane")], ["tell", "--as", "me"]);
            TakeCommon(args).body == ["tell"] && TakeCommon(args).poster == "me"
  {
    var args := ["--to", "pane", "--", "tell", "--as", "me"];
    assert Argv([Flag("--to", "pane")], ["tell", "--as", "me"]) == args;
    assert Rest(args, "--session") == args && Rest(args, "--board") == args && Rest(args, "--fleet") == args;
    assert FlagAt(args, "--as") == 4;
    assert Rest(args, "--as") == ["--to", "pane", "--", "tell"];
    assert IndexOf(["--to", "pane", "--", "tell"], "--") == 2;
  }

  // ---------------------------------------------------------------- what is accepted

  lemma TakeFlag(p: seq<Arg>, name: string)
    requires Sane(p) && name in NAMES
    ensures Rest(Flatten(p), name) == Flatten(Drop(p, name)) && Get(Flatten(p), name) == Value(p, name)
    ensures Sane(Drop(p, name))
    ensures forall n :: Lookup(Drop(p, name), n) == if n == name then None else Lookup(p, n)
    ensures WordsOf(Drop(p, name)) == WordsOf(p)
  {
    ExtractFromPairs(p, [], name);
    assert Flatten(p) + [] == Flatten(p) && Flatten(Drop(p, name)) + [] == Flatten(Drop(p, name));
    assert Rest([], name) == [];
    DropKeeps(p, name);
    DropAbsent(p, name);
  }

  predicate TakenBySend(name: string) {
    name in {"--to", "--id", "--file", "--thread"}
  }

  /** What is left over once a command has taken its flags. */
  function LeftBySend(p: seq<Arg>): seq<Arg> {
    Drop(Drop(Drop(Drop(p, "--to"), "--id"), "--file"), "--thread")
  }

  lemma SendTakes(ids: Ids, b: BoardSend, p: seq<Arg>, body: seq<string>)
    requires Sane(p)
    ensures SendRest(ids, b, Flatten(p), body)
         == SendChecks(ids, b.(to := Value(p, "--to"), cmdId := Value(p, "--id"), file := Value(p, "--file"),
                               threadId := Value(p, "--thread")), Flatten(LeftBySend(p)), body)
    ensures Sane(LeftBySend(p))
    ensures forall n :: Lookup(LeftBySend(p), n) == (if TakenBySend(n) then None else Lookup(p, n))
    ensures WordsOf(LeftBySend(p)) == WordsOf(p)
  {
    TakeFlag(p, "--to");
    var p1 := Drop(p, "--to");
    TakeFlag(p1, "--id");
    var p2 := Drop(p1, "--id");
    TakeFlag(p2, "--file");
    var p3 := Drop(p2, "--file");
    TakeFlag(p3, "--thread");
    assert Value(p1, "--id") == Value(p, "--id") && Value(p2, "--file") == Value(p, "--file");
    assert Value(p3, "--thread") == Value(p, "--thread");
  }

  ghost predicate NoFlags(p: seq<Arg>) {
    forall n :: Lookup(p, n).None?
  }

  /** Without flags, what is left are the words; a flag is more than one. */
  lemma {:induction false} OnlyWordsLeft(p: seq<Arg>)
    ensures NoFlags(p) ==> Flatten(p) == WordsOf(p)
    ensures !NoFlags(p) ==> |Flatten(p)| >= 2
    ensures forall w <- WordsOf(p) :: w in Flatten(p)
  {
    if p != [] {
      OnlyWordsLeft(p[1..]);
      if p[0].Flag? {
        assert Lookup(p, p[0].name).Some?;
      } else {
        assert forall n :: Lookup(p, n) == Lookup(p[1..], n);
      }
    }
  }

  /** Nothing is left exactly when no flag and no word is. */
  lemma NoneLeft(p: seq<Arg>)
    requires Sane(p)
    ensures Flatten(p) == [] <==> NoFlags(p) && WordsOf(p) == []
  {
    OnlyWordsLeft(p);
  }

  lemma NotAName(pairs: seq<Arg>, name: string)
    requires Sane(pairs) && name !in NAMES
    ensures Lookup(pairs, name).None?
  {
    LookupNone(pairs, name);
  }

  /** Some word holds a character that is not blank. */
  ghost predicate HasText(body: seq<string>) {
    exists i | 0 <= i < |body| :: !BlankText(body[i])
  }

  predicate BlankText(s: string) {
    forall i | 0 <= i < |s| :: IsSpace(s[i])
  }

  lemma TrimmedAway(s: string)
    ensures TrimSpace(s) == "" <==> BlankText(s)
  {
    var k := LeadingSpaces(s);
    var t := TrimLeft(s);
    assert t == s[k..];
    if k < |s| {
      assert t[0] == s[k];
    }
  }

  lemma {:induction false} JoinedText(body: seq<string>)
    ensures BlankText(Join(body, " ")) <==> !HasText(body)
  {
    if |body| == 1 {
      assert Join(body, " ") == body[0];
    } else if |body| > 1 {
      var rest := Join(body[1..], " ");
      JoinedText(body[1..]);
      BlankConcat(body[0] + " ", rest);
      BlankConcat(body[0], " ");
      assert HasText(body) <==> !BlankText(body[0]) || HasText(body[1..]) by {
        forall i | 0 < i < |body| ensures body[i] == body[1..][i - 1] {
        }
      }
    }
  }

  lemma BlankConcat(a: string, b: string)
    ensures BlankText(a + b) <==> BlankText(a) && BlankText(b)
  {
    var ab := a + b;
    forall i | 0 <= i < |b| ensures ab[|a| + i] == b[i] {
    }
    if BlankText(ab) {
      assert forall i | 0 <= i < |a| :: a[i] == ab[i];
    }
  }

  /** The board the flags name: at most one of them does, and it is a valid id. */
  predicate BoardNamed(ids: Ids, pairs: seq<Arg>) {
    var board := BoardFlag(pairs);
    && (board != "" ==> ids.validBoard(board))
    && (Value(pairs, "--board") != "" ==> Lookup(pairs, "--fleet").None?)
  }

  function BoardFlag(pairs: seq<Arg>): string {
    if Value(pairs, "--board") == "" then Value(pairs, "--fleet") else Value(pairs, "--board")
  }

  /** The fields all three commands have. */
  function CommonFields(ids: Ids, pairs: seq<Arg>): BoardSend {
    Started(ids, Value(pairs, "--session"), BoardFlag(pairs), Value(pairs, "--as"))
  }

  lemma {:induction false} IndexOfNone(a: seq<string>, want: string)
    requires want !in a
    ensures IndexOf(a, want) == |a|
  {
    if a != [] {
      IndexOfNone(a[1..], want);
    }
  }

  /** A separator with nothing behind it may be left out. */
  lemma BareIsEmptyBody(pairs: seq<Arg>)
    requires Sane(pairs)
    ensures TakeCommon(Flatten(pairs)) == TakeCommon(Argv(pairs, []))
  {
    assert BodySafe(pairs, []);
    BodyArrivesIffSafe(pairs, []);
    TakeFlag(pairs, "--session");
    var p1 := Drop(pairs, "--session");
    TakeFlag(p1, "--board");
    var p2 := Drop(p1, "--board");
    SameValues(pairs, p1, p2);
    BareFleet(p2, Value(pairs, "--session"), Value(pairs, "--board"));
  }

  lemma BareFleet(p: seq<Arg>, sess: string, board: string)
    requires Sane(p)
    ensures TakeFleet(Flatten(p), sess, board)
         == Common(Flatten(Drop(if board == "" then Drop(p, "--fleet") else p, "--as")), [], sess,
                   if board == "" then Value(p, "--fleet") else board, Value(p, "--as"))
  {
    if board == "" {
      TakeFlag(p, "--fleet");
      var p3 := Drop(p, "--fleet");
      assert Lookup(p3, "--as") == Lookup(p, "--as");
      BarePoster(p3, sess, Value(p, "--fleet"));
    } else {
      BarePoster(p, sess, board);
    }
  }

  lemma BarePoster(p: seq<Arg>, sess: string, board: string)
    requires Sane(p)
    ensures TakePoster(Flatten(p), sess, board) == Common(Flatten(Drop(p, "--as")), [], sess, board, Value(p, "--as"))
  {
    TakeFlag(p, "--as");
    var rest := Flatten(Drop(p, "--as"));
    FlattenFree(Drop(p, "--as"));
    IndexOfNone(rest, "--");
    assert rest[..|rest|] == rest;
  }

  /** What all three commands take, however the arguments are given. */
  lemma CommonGiven(pairs: seq<Arg>, separated: bool, body: seq<string>)
    requires Sane(pairs) && BodySafe(pairs, body) && (!separated ==> body == [])
    ensures TakeCommon(Given(pairs, separated, body))
         == Common(Flatten(Remaining(pairs)), body, Value(pairs, "--session"), BoardFlag(pairs), Value(pairs, "--as"))
  {
    BodyArrivesIffSafe(pairs, body);
    if !separated {
      BareIsEmptyBody(pairs);
    }
  }

  /** The three commands from there on. */
  lemma ParseGiven(ids: Ids, sub: Sub, pairs: seq<Arg>, separated: bool, body: seq<string>)
    requires Sane(pairs) && BodySafe(pairs, body) && (!separated ==> body == [])
    ensures var o, board := ParseRest(ids, sub, TakeCommon(Given(pairs, separated, body))), BoardFlag(pairs);
            if board != "" && !ids.validBoard(board) then o == BadBoard(board)
            else o == Dispatch(ids, sub, CommonFields(ids, pairs), Flatten(Remaining(pairs)), body)
  {
    CommonGiven(pairs, separated, body);
  }

  /** For all sane arguments, with a body that arrives or without separator: a send
      is accepted if and only if it has what it needs, and then every field is the
      value given. */
  lemma SendAcceptedIff(ids: Ids, pairs: seq<Arg>, separated: bool, body: seq<string>)
    requires Sane(pairs) && BodySafe(pairs, body) && (!separated ==> body == [])
    ensures var o := ParseRest(ids, Send, TakeCommon(Given(pairs, separated, body)));
            var board := if Value(pairs, "--board") == "" then Value(pairs, "--fleet") else Value(pairs, "--board");
            && (o.Parsed? <==>
                  && (board != "" ==> ids.validBoard(board))
                  && (Value(pairs, "--board") != "" ==> Lookup(pairs, "--fleet").None?)
                  && Lookup(pairs, "--note").None? && WordsOf(pairs) == [] && Value(pairs, "--to") != ""
                  && (Value(pairs, "--id") != "" ==> ids.validCmd(Value(pairs, "--id")))
                  && (Value(pairs, "--file") != "" || exists i | 0 <= i < |body| :: TrimSpace(body[i]) != ""))
            && (o.Parsed? ==>
                  o.b == BoardSend(Value(pairs, "--as"), Value(pairs, "--session"),
                                   if board == "" then "" else ids.normalBoard(board),
                                   Value(pairs, "--to"), Value(pairs, "--id"), Value(pairs, "--file"),
                                   Value(pairs, "--thread"), TrimSpace(Join(body, " ")), false, false))
  {
    ParseGiven(ids, Send, pairs, separated, body);
    var p := Remaining(pairs);
    RemainingLookup(pairs);
    var b := CommonFields(ids, pairs);
    SendTakes(ids, b, p, body);
    SendLeaves(pairs);
    SameSendValues(pairs, p);
    TextIff(body);
    SendChecksIff(ids, b.(to := Value(p, "--to"), cmdId := Value(p, "--id"), file := Value(p, "--file"),
                          threadId := Value(p, "--thread")), Flatten(LeftBySend(p)), body);
  }

  lemma TextIff(body: seq<string>)
    ensures HasText(body) <==> exists i | 0 <= i < |body| :: TrimSpace(body[i]) != ""
  {
    forall i | 0 <= i < |body| ensures TrimSpace(body[i]) == "" <==> BlankText(body[i]) {
      TrimmedAway(body[i]);
    }
  }

  /** Why a send is refused: the first of these that is so. */
  lemma SendRefusedFor(ids: Ids, pairs: seq<Arg>, separated: bool, body: seq<string>)
    requires Sane(pairs) && BodySafe(pairs, body) && (!separated ==> body == [])
    ensures var o := ParseRest(ids, Send, TakeCommon(Given(pairs, separated, body)));
            var board := if Value(pairs, "--board") == "" then Value(pairs, "--fleet") else Value(pairs, "--board");
            var to, id, file := Value(pairs, "--to"), Value(pairs, "--id"), Value(pairs, "--file");
            if board != "" && !ids.validBoard(board) then o == BadBoard(board)
            else if Value(pairs, "--board") != "" && Lookup(pairs, "--fleet").Some? then o.Unexpected?
            else if Lookup(pairs, "--note").Some? || WordsOf(pairs) != [] then o.Unexpected?
            else if to == "" then o == NoRecipient
            else if id != "" && !ids.validCmd(id) then o == BadId(id)
            else if file == "" && forall i | 0 <= i < |body| :: TrimSpace(body[i]) == "" then o == NoMessage
            else o.Parsed?
  {
    ParseGiven(ids, Send, pairs, separated, body);
    var p := Remaining(pairs);
    RemainingLookup(pairs);
    SendTakes(ids, CommonFields(ids, pairs), p, body);
    SendLeaves(pairs);
    SameSendValues(pairs, p);
    TextIff(body);
    TrimmedAway(Join(body, " "));
    JoinedText(body);
  }

  lemma SendChecksIff(ids: Ids, b: BoardSend, rest: seq<string>, body: seq<string>)
    ensures var o := SendChecks(ids, b, rest, body);
            && (o.Parsed? <==> rest == [] && b.to != "" && (b.cmdId != "" ==> ids.validCmd(b.cmdId))
                               && (HasText(body) || b.file != ""))
            && (o.Parsed? ==> o.b == b.(text := TrimSpace(Join(body, " "))))
  {
    TrimmedAway(Join(body, " "));
    JoinedText(body);
  }

  lemma SameSendValues(pairs: seq<Arg>, p: seq<Arg>)
    requires forall n | n in {"--to", "--id", "--file", "--thread"} :: Lookup(p, n) == Lookup(pairs, n)
    ensures Value(p, "--to") == Value(pairs, "--to") && Value(p, "--id") == Value(pairs, "--id")
    ensures Value(p, "--file") == Value(pairs, "--file") && Value(p, "--thread") == Value(pairs, "--thread")
  {}

  lemma SendLeaves(pairs: seq<Arg>)
    requires Sane(pairs)
    ensures Flatten(LeftBySend(Remaining(pairs))) == [] <==>
              Lookup(pairs, "--note").None? && (Value(pairs, "--board") != "" ==> Lookup(pairs, "--fleet").None?)
              && WordsOf(pairs) == []
  {
    var q := LeftBySend(Remaining(pairs));
    RemainingLookup(pairs);
    SendTakes(Ids(_ => true, s => s, _ => true), EMPTY, Remaining(pairs), []);
    NoneLeft(q);
    forall n ensures Lookup(q, n) == if TakenBySend(n) || TakenByAll(pairs, n) then None else Lookup(pairs, n) {
    }
    OnlyTheseLeft(pairs, q);
  }

  lemma OnlyTheseLeft(pairs: seq<Arg>, q: seq<Arg>)
    requires Sane(pairs)
    requires forall n :: Lookup(q, n) == if TakenBySend(n) || TakenByAll(pairs, n) then None else Lookup(pairs, n)
    ensures NoFlags(q) <==>
              Lookup(pairs, "--note").None? && (Value(pairs, "--board") != "" ==> Lookup(pairs, "--fleet").None?)
  {
    forall n | !TakenBySend(n) && !TakenByAll(pairs, n) && n !in {"--note", "--fleet"} ensures Lookup(pairs, n).None? {
      AllNames(pairs, n);
    }
    NoteAndFleet(pairs);
    assert Lookup(q, "--note") == Lookup(pairs, "--note");
    assert Lookup(q, "--fleet") == if TakenByAll(pairs, "--fleet") then None else Lookup(pairs, "--fleet");
  }

  lemma NoteAndFleet(pairs: seq<Arg>)
    ensures !TakenBySend("--note") && !TakenBySend("--fleet") && !TakenByAll(pairs, "--note")
    ensures TakenByAll(pairs, "--fleet") <==> Value(pairs, "--board") == ""
  {}

  lemma AllNames(pairs: seq<Arg>, name: string)
    requires Sane(pairs) && !TakenBySend(name) && name !in {"--note", "--fleet", "--session", "--board", "--as"}
    ensures Lookup(pairs, name).None?
  {
    NotAName(pairs, name);
  }

  /** An ack is accepted if and only if the words left by the flags, those behind the
      separator among them, are one valid id; and then that is the id and the note
      is the note given. */
  lemma AckAcceptedIff(ids: Ids, pairs: seq<Arg>, separated: bool, body: seq<string>)
    requires Sane(pairs) && BodySafe(pairs, body) && Recognises(Ack, pairs) && (!separated ==> body == [])
    ensures var o, words := ParseRest(ids, Ack, TakeCommon(Given(pairs, separated, body))), WordsOf(pairs) + body;
            var board := if Value(pairs, "--board") == "" then Value(pairs, "--fleet") else Value(pairs, "--board");
            && (o.Parsed? <==>
                  && (board != "" ==> ids.validBoard(board))
                  && (Value(pairs, "--board") != "" ==> Lookup(pairs, "--fleet").None?)
                  && |words| == 1 && ids.validCmd(words[0]))
            && (o.Parsed? ==>
                  o.b == BoardSend(Value(pairs, "--as"), Value(pairs, "--session"),
                                   if board == "" then "" else ids.normalBoard(board),
                                   "", words[0], "", "", Value(pairs, "--note"), false, false))
  {
    ParseGiven(ids, Ack, pairs, separated, body);
    var p := Remaining(pairs);
    RemainingLookup(pairs);
    AckTakes(ids, CommonFields(ids, pairs), p, body);
    assert Lookup(p, "--note") == Lookup(pairs, "--note");
    assert Value(p, "--note") == Value(pairs, "--note");
    AckLeaves(pairs);
  }

  lemma AckTakes(ids: Ids, b: BoardSend, p: seq<Arg>, body: seq<string>)
    requires Sane(p)
    ensures var o, words := AckRest(ids, b, Flatten(p), body), WordsOf(p) + body;
            && (o.Parsed? <==> NoFlags(Drop(p, "--note")) && |words| == 1 && ids.validCmd(words[0]))
            && (o.Parsed? ==> o.b == b.(text := Value(p, "--note"), cmdId := words[0]))
  {
    TakeFlag(p, "--note");
    OnlyWordsLeft(Drop(p, "--note"));
  }

  lemma AckLeaves(pairs: seq<Arg>)
    requires Sane(pairs) && Recognises(Ack, pairs)
    ensures NoFlags(Drop(Remaining(pairs), "--note")) <==>
              (Value(pairs, "--board") != "" ==> Lookup(pairs, "--fleet").None?)
  {
    var p := Remaining(pairs);
    RemainingLookup(pairs);
    DropKeeps(p, "--note");
    KnownFlags(Ack, pairs);
    forall n | n != "--fleet" ensures Lookup(Drop(p, "--note"), n).None? {
      AckName(pairs, n);
    }
    FleetStays(pairs, p);
    LeftIsFleet(pairs, Drop(p, "--note"));
  }

  lemma AckName(pairs: seq<Arg>, name: string)
    ensures name in Recognised(Ack) && name != "--fleet" ==> TakenByAll(pairs, name) || name == "--note"
  {}

  lemma FleetStays(pairs: seq<Arg>, p: seq<Arg>)
    requires Sane(p) && forall n :: Lookup(p, n) == if TakenByAll(pairs, n) then None else Lookup(pairs, n)
    ensures Lookup(Drop(p, "--note"), "--fleet")
         == if TakenByAll(pairs, "--fleet") then None else Lookup(pairs, "--fleet")
  {
    DropKeeps(p, "--note");
  }

  lemma LeftIsFleet(pairs: seq<Arg>, q: seq<Arg>)
    requires forall n | n != "--fleet" :: Lookup(q, n).None?
    requires Lookup(q, "--fleet") == if TakenByAll(pairs, "--fleet") then None else Lookup(pairs, "--fleet")
    ensures NoFlags(q) <==> (Value(pairs, "--board") != "" ==> Lookup(pairs, "--fleet").None?)
  {
    NoteAndFleet(pairs);
  }

  lemma KnownFlags(sub: Sub, pairs: seq<Arg>)
    requires Sane(pairs) && Recognises(sub, pairs)
    ensures forall n | Lookup(pairs, n).Some? :: n in Recognised(sub)
  {
    forall n | Lookup(pairs, n).Some? ensures n in Recognised(sub) {
      LookupIsMember(pairs, n, Lookup(pairs, n).value);
      assert Flag(n, Lookup(pairs, n).value) in pairs;
    }
  }

  lemma {:induction false} WithoutMember(args: seq<string>, name: string, w: string)
    ensures w in Without(args, name) <==> w in args && w != name
  {
    if args != [] {
      WithoutMember(args[1..], name, w);
      assert args == [args[0]] + args[1..];
    }
  }

  const SWITCHES: set<string> := {"--all", "--json"}

  /** An inbox is accepted if and only if its words are its two switches, in any
      order, place and number, and nothing is behind the separator; and then each
      switch is on if it was given. */
  lemma InboxAcceptedIff(ids: Ids, pairs: seq<Arg>, separated: bool, body: seq<string>)
    requires Sane(pairs) && BodySafe(pairs, body) && Recognises(Inbox, pairs) && (!separated ==> body == [])
    ensures var o, words := ParseRest(ids, Inbox, TakeCommon(Given(pairs, separated, body))), WordsOf(pairs);
            var board := if Value(pairs, "--board") == "" then Value(pairs, "--fleet") else Value(pairs, "--board");
            && (o.Parsed? <==>
                  && (board != "" ==> ids.validBoard(board))
                  && (Value(pairs, "--board") != "" ==> Lookup(pairs, "--fleet").None?)
                  && body == [] && forall w <- words :: w == "--all" || w == "--json")
            && (o.Parsed? ==>
                  o.b == BoardSend(Value(pairs, "--as"), Value(pairs, "--session"),
                                   if board == "" then "" else ids.normalBoard(board),
                                   "", "", "", "", "", "--all" in words, "--json" in words))
  {
    InboxAccepted(ids, pairs, separated, body);
  }

  lemma InboxAccepted(ids: Ids, pairs: seq<Arg>, separated: bool, body: seq<string>)
    requires Sane(pairs) && BodySafe(pairs, body) && Recognises(Inbox, pairs) && (!separated ==> body == [])
    ensures var o, words := ParseRest(ids, Inbox, TakeCommon(Given(pairs, separated, body))), WordsOf(pairs);
            && (o.Parsed? <==> BoardNamed(ids, pairs) && body == [] && forall w <- words :: w in SWITCHES)
            && (o.Parsed? ==> o.b == CommonFields(ids, pairs).(all := "--all" in words, json := "--json" in words))
  {
    ParseGiven(ids, Inbox, pairs, separated, body);
    var p := Remaining(pairs);
    RemainingLookup(pairs);
    InboxTakes(CommonFields(ids, pairs), p, body);
    InboxLeaves(pairs);
  }

  lemma InboxTakes(b: BoardSend, p: seq<Arg>, body: seq<string>)
    requires Sane(p)
    ensures var o, words := InboxRest(b, Flatten(p), body), WordsOf(p);
            && (o.Parsed? <==> NoFlags(p) && body == [] && forall w <- words :: w in SWITCHES)
            && (o.Parsed? ==> o.b == b.(all := "--all" in words, json := "--json" in words))
  {
    InboxChecks(b, Flatten(p), body);
    OnlyWordsLeft(p);
    if !NoFlags(p) {
      FlagsAreNoSwitches(p);
    }
  }

  lemma InboxChecks(b: BoardSend, rest: seq<string>, body: seq<string>)
    ensures var o := InboxRest(b, rest, body);
            && (o.Parsed? <==> body == [] && forall w <- rest :: w in SWITCHES)
            && (o.Parsed? ==> o.b == b.(all := "--all" in rest, json := "--json" in rest))
  {
    var some := Without(rest, "--all");
    var words := Without(some, "--json");
    forall w ensures w in words <==> w in rest && w !in SWITCHES {
      WithoutMember(rest, "--all", w);
      WithoutMember(some, "--json", w);
    }
    WithoutMember(rest, "--all", "--json");
    if words != [] {
      assert words[0] in words;
    }
  }

  lemma InboxLeaves(pairs: seq<Arg>)
    requires Sane(pairs) && Recognises(Inbox, pairs)
    ensures NoFlags(Remaining(pairs)) <==> (Value(pairs, "--board") != "" ==> Lookup(pairs, "--fleet").None?)
  {
    var q := Remaining(pairs);
    RemainingLookup(pairs);
    KnownFlags(Inbox, pairs);
    forall n | n != "--fleet" ensures Lookup(q, n).None? {
    }
    LeftIsFleet(pairs, q);
  }

  lemma {:induction false} FlagsAreNoSwitches(p: seq<Arg>)
    requires Sane(p) && !NoFlags(p)
    ensures exists w <- Flatten(p) :: w !in SWITCHES
  {
    if p != [] {
      if p[0].Flag? {
        assert p[0].name in Flatten(p) && p[0].name in NAMES;
      } else {
        assert forall n :: Lookup(p, n) == Lookup(p[1..], n);
        SaneTail(p);
        FlagsAreNoSwitches(p[1..]);
        var w :| w in Flatten(p[1..]) && w !in SWITCHES;
        assert w in Flatten(p);
      }
    }
  }

  // ---------------------------------------------------------------- any order

  /** The flags each command takes. */
  function Recognised(sub: Sub): set<string> {
    match sub
    case Send => NAMES - {"--note"}
    case Ack => {"--session", "--board", "--fleet", "--as", "--note"}
    case Inbox => {"--session", "--board", "--fleet", "--as"}
  }

  predicate Recognises(sub: Sub, pairs: seq<Arg>) {
    forall p <- pairs | p.Flag? :: p.name in Recognised(sub)
  }

  ghost predicate SameFlags(p: seq<Arg>, q: seq<Arg>) {
    forall n :: Lookup(p, n) == Lookup(q, n)
  }

  lemma PermutedIsSame(p: seq<Arg>, q: seq<Arg>)
    requires Sane(p) && Sane(q) && multiset(p) == multiset(q)
    ensures SameFlags(p, q)
  {
    forall n ensures Lookup(p, n) == Lookup(q, n) {
      forall v ensures Flag(n, v) in p <==> Flag(n, v) in q {
        assert Flag(n, v) in multiset(p) <==> Flag(n, v) in multiset(q);
      }
      match Lookup(p, n) {
        case Some(v) =>
          LookupIsMember(p, n, v);
          LookupIsMember(q, n, v);
        case None =>
          match Lookup(q, n) {
            case Some(v) =>
              LookupIsMember(p, n, v);
              LookupIsMember(q, n, v);
            case None =>
          }
      }
    }
  }

  lemma DropSame(p: seq<Arg>, q: seq<Arg>, name: string)
    requires Sane(p) && Sane(q) && SameFlags(p, q)
    ensures SameFlags(Drop(p, name), Drop(q, name)) && Sane(Drop(p, name)) && Sane(Drop(q, name))
    ensures WordsOf(Drop(p, name)) == WordsOf(p) && WordsOf(Drop(q, name)) == WordsOf(q)
  {
    DropKeeps(p, name);
    DropKeeps(q, name);
  }

  /** At most one flag left over, and no word: then order is gone. */
  lemma OneLeft(p: seq<Arg>, q: seq<Arg>, name: string)
    requires Sane(p) && Sane(q) && SameFlags(p, q) && WordsOf(p) == WordsOf(q) == []
    requires forall n | n != name :: Lookup(p, n).None?
    ensures p == q
  {
    forall r: seq<Arg> | Sane(r) && SameFlags(r, p) && WordsOf(r) == []
      ensures r == match Lookup(p, name) case Some(v) => [Flag(name, v)] case None => []
    {
      NoWords(r);
      forall i | 0 <= i < |r| ensures Is(r[i], name) {
        LookupNone(r, r[i].name);
      }
      LookupNone(r, name);
      if r != [] {
        assert r[0].name == r[|r| - 1].name;
      }
    }
  }

  lemma {:induction false} NoWords(r: seq<Arg>)
    requires WordsOf(r) == []
    ensures forall i | 0 <= i < |r| :: r[i].Flag?
  {
    if r != [] {
      NoWords(r[1..]);
      assert forall i | 0 < i < |r| :: r[i] == r[1..][i - 1];
    }
  }

  lemma RemainingSame(p: seq<Arg>, q: seq<Arg>)
    requires Sane(p) && Sane(q) && SameFlags(p, q)
    ensures SameFlags(Remaining(p), Remaining(q)) && Sane(Remaining(p)) && Sane(Remaining(q))
    ensures WordsOf(Remaining(p)) == WordsOf(p) && WordsOf(Remaining(q)) == WordsOf(q)
  {
    DropSame(p, q, "--session");
    var p1, q1 := Drop(p, "--session"), Drop(q, "--session");
    DropSame(p1, q1, "--board");
    var p2, q2 := Drop(p1, "--board"), Drop(q1, "--board");
    DropSame(p2, q2, "--fleet");
    var fleet := Value(p, "--board") == "";
    assert Value(q, "--board") == Value(p, "--board");
    DropSame(if fleet then Drop(p2, "--fleet") else p2, if fleet then Drop(q2, "--fleet") else q2, "--as");
  }

  lemma TakeOne(p: seq<Arg>, q: seq<Arg>, name: string) returns (p': seq<Arg>, q': seq<Arg>)
    requires Sane(p) && Sane(q) && SameFlags(p, q) && name in NAMES
    ensures Rest(Flatten(p), name) == Flatten(p') && Rest(Flatten(q), name) == Flatten(q')
    ensures Get(Flatten(p), name) == Get(Flatten(q), name)
    ensures Sane(p') && Sane(q') && SameFlags(p', q') && WordsOf(p') == WordsOf(p) && WordsOf(q') == WordsOf(q)
    ensures forall n :: Lookup(p', n).Some? ==> Lookup(p, n).Some? && n != name
  {
    ExtractFromPairs(p, [], name);
    ExtractFromPairs(q, [], name);
    assert Flatten(p) + [] == Flatten(p) && Flatten(q) + [] == Flatten(q);
    assert Rest([], name) == [];
    p', q' := Drop(p, name), Drop(q, name);
    assert Flatten(p') + [] == Flatten(p') && Flatten(q') + [] == Flatten(q');
    DropSame(p, q, name);
    DropKeeps(p, name);
    DropAbsent(p, name);
    DropAbsent(q, name);
  }

  lemma SendSame(ids: Ids, b: BoardSend, p: seq<Arg>, q: seq<Arg>, body: seq<string>)
    requires Sane(p) && Sane(q) && SameFlags(p, q) && WordsOf(p) == WordsOf(q) == []
    requires forall n | Lookup(p, n).Some? :: n in {"--fleet", "--to", "--id", "--file", "--thread"}
    ensures SendRest(ids, b, Flatten(p), body) == SendRest(ids, b, Flatten(q), body)
  {
    var p1, q1 := TakeOne(p, q, "--to");
    var p2, q2 := TakeOne(p1, q1, "--id");
    var p3, q3 := TakeOne(p2, q2, "--file");
    var p4, q4 := TakeOne(p3, q3, "--thread");
    assert forall n | Lookup(p4, n).Some? :: Lookup(p3, n).Some? && Lookup(p2, n).Some? && Lookup(p1, n).Some?;
    OneLeft(p4, q4, "--fleet");
  }

  lemma AckSame(ids: Ids, b: BoardSend, p: seq<Arg>, q: seq<Arg>, body: seq<string>)
    requires Sane(p) && Sane(q) && SameFlags(p, q) && WordsOf(p) == WordsOf(q) == []
    requires forall n | Lookup(p, n).Some? :: n in {"--note", "--fleet"}
    ensures AckRest(ids, b, Flatten(p), body) == AckRest(ids, b, Flatten(q), body)
  {
    var p1, q1 := TakeOne(p, q, "--note");
    OneNameLeft(p, p1, "--note", "--fleet");
    OneLeft(p1, q1, "--fleet");
  }

  lemma OneNameLeft(p: seq<Arg>, p1: seq<Arg>, taken: string, left: string)
    requires forall n | Lookup(p, n).Some? :: n in {taken, left}
    requires forall n :: Lookup(p1, n).Some? ==> Lookup(p, n).Some? && n != taken
    ensures forall n | n != left :: Lookup(p1, n).None?
  {}

  lemma NamesUsed(sub: Sub, p: seq<Arg>)
    requires Sane(p) && Recognises(sub, p)
    ensures forall n | Lookup(Remaining(p), n).Some? :: n in Recognised(sub) - {"--session", "--board", "--as"}
  {
    RemainingLookup(p);
    KnownFlags(sub, p);
  }

  lemma SameCommon(p: seq<Arg>, q: seq<Arg>, body: seq<string>)
    requires Sane(p) && Sane(q) && SameFlags(p, q) && BodySafe(p, body)
    ensures TakeCommon(Argv(q, body)) == TakeCommon(Argv(p, body)).(rest := Flatten(Remaining(q)))
    ensures TakeCommon(Argv(p, body)).rest == Flatten(Remaining(p)) && TakeCommon(Argv(p, body)).body == body
  {
    assert Value(q, "--session") == Value(p, "--session") && Value(q, "--board") == Value(p, "--board");
    assert Value(q, "--fleet") == Value(p, "--fleet") && Value(q, "--as") == Value(p, "--as");
    assert BodySafe(q, body);
    BodyArrivesIffSafe(p, body);
    BodyArrivesIffSafe(q, body);
  }

  lemma DispatchSame(ids: Ids, sub: Sub, b: BoardSend, p: seq<Arg>, q: seq<Arg>, body: seq<string>)
    requires Sane(p) && Sane(q) && SameFlags(p, q) && WordsOf(p) == WordsOf(q) == []
    requires forall n | Lookup(p, n).Some? :: n in Recognised(sub) - {"--session", "--board", "--as"}
    ensures Dispatch(ids, sub, b, Flatten(p), body) == Dispatch(ids, sub, b, Flatten(q), body)
  {
    match sub
    case Inbox => OneLeft(p, q, "--fleet");
    case Ack => AckSame(ids, b, p, q, body);
    case Send => SendSame(ids, b, p, q, body);
  }

  /** With words among them, in whatever places: the flags may come in any order,
      and the same call is accepted with the same result. */
  lemma PlacesDoNotMatter(ids: Ids, sub: Sub, p: seq<Arg>, q: seq<Arg>, separated: bool, body: seq<string>)
    requires Sane(p) && Sane(q) && multiset(p) == multiset(q) && WordsOf(p) == WordsOf(q)
    requires Recognises(sub, p) && BodySafe(p, body) && (!separated ==> body == [])
    ensures var o, o' := ParseRest(ids, sub, TakeCommon(Given(p, separated, body))),
                         ParseRest(ids, sub, TakeCommon(Given(q, separated, body)));
            (o.Parsed? <==> o'.Parsed?) && (o.Parsed? ==> o == o')
  {
    PermutedIsSame(p, q);
    SameInBoth(p, q);
    forall a <- q ensures a in p {
      assert a in multiset(q);
    }
    match sub
    case Send =>
      SendAcceptedIff(ids, p, separated, body);
      SendAcceptedIff(ids, q, separated, body);
    case Ack =>
      AckAcceptedIff(ids, p, separated, body);
      AckAcceptedIff(ids, q, separated, body);
    case Inbox =>
      InboxAcceptedIff(ids, p, separated, body);
      InboxAcceptedIff(ids, q, separated, body);
  }

  lemma SameInBoth(p: seq<Arg>, q: seq<Arg>)
    requires SameFlags(p, q)
    ensures forall n :: Value(p, n) == Value(q, n)
    ensures forall body :: BodySafe(p, body) <==> BodySafe(q, body)
  {
    forall n ensures Value(p, n) == Value(q, n) {
      assert Lookup(p, n) == Lookup(q, n);
    }
    forall body, n ensures Covered(p, body, n) <==> Covered(q, body, n) {
      assert Lookup(p, n) == Lookup(q, n);
    }
  }

  lemma {:induction false} WordsAreMembers(p: seq<Arg>, w: string)
    ensures w in WordsOf(p) <==> Word(w) in p
  {
    if p != [] {
      WordsAreMembers(p[1..], w);
      assert forall a :: a in p <==> a == p[0] || a in p[1..];
    }
  }

  lemma NoWordsEither(p: seq<Arg>, q: seq<Arg>)
    requires multiset(p) == multiset(q) && WordsOf(p) == []
    ensures WordsOf(q) == []
  {
    if WordsOf(q) != [] {
      var w := WordsOf(q)[0];
      WordsAreMembers(q, w);
      assert Word(w) in multiset(q);
      WordsAreMembers(p, w);
    }
  }

  /** Without words, the flags may come in any order: the result, error or not, is the same. */
  lemma OrderDoesNotMatter(ids: Ids, sub: Sub, p: seq<Arg>, q: seq<Arg>, body: seq<string>)
    requires Sane(p) && Sane(q) && multiset(p) == multiset(q) && WordsOf(p) == []
    requires Recognises(sub, p) && BodySafe(p, body)
    ensures ParseRest(ids, sub, TakeCommon(Argv(p, body))) == ParseRest(ids, sub, TakeCommon(Argv(q, body)))
  {
    NoWordsEither(p, q);
    PermutedIsSame(p, q);
    SameCommon(p, q, body);
    RemainingSame(p, q);
    NamesUsed(sub, p);
    var c := TakeCommon(Argv(p, body));
    DispatchSame(ids, sub, Started(ids, c.sess, c.board, c.poster), Remaining(p), Remaining(q), body);
  }
}
