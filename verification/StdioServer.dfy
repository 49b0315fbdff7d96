/** The stdio JSON-RPC loop shared by the MCP servers (serveStdioMCP in
    cmd/rysh/company_mcp.go): one reader, one goroutine per tools/call, a write
    lock, and a wait for the calls in flight. */
module StdioServer {
  import opened Text

  /** What the scanner hands the loop, as far as the loop looks at it. */
  datatype Line =
    | Blank
    | Unparseable
    | Notification
    | Request(id: string, what: Method)

  datatype Method = Direct | CallTool | BadCall | Unknown

  /** The response object, before it is encoded. text stands for the result or
      the error's message. */
  datatype Response = Response(id: string, code: int, text: string)

  const NULL_ID := "null"
  const PARSE_ERROR := -32700
  const BAD_PARAMS := -32602
  const NO_METHOD := -32601

  predicate Answerable(line: Line) {
    line.Unparseable? || line.Request?
  }

  /** Lines the reader itself answers; a tools/call is answered by its goroutine. */
  predicate AnsweredByReader(line: Line) {
    line.Unparseable? || (line.Request? && !line.what.CallTool?)
  }

  function Code(what: Method): int {
    match what
    case Direct => 0
    case CallTool => 0
    case BadCall => BAD_PARAMS
    case Unknown => NO_METHOD
  }

  /** The right answer to a line: the id is the request's own, null for a line
      that does not parse; the code says which error, 0 is a result. */
  predicate Answers(r: Response, line: Line) {
    match line
    case Unparseable => r.id == NULL_ID && r.code == PARSE_ERROR
    case Request(id, what) => r.id == id && r.code == Code(what)
    case _ => false
  }

  // ---------------------------------------------------------------- the interleaving

  datatype Actor = Reader | Call(line: nat)

  datatype Reading =
    | AtLine                       // about to scan the next line
    | Wants(r: Response)           // has a response, needs the lock
    | Waiting                      // input ended; waiting for calls in flight
    | Returned

  datatype Progress = Running | Ready(r: Response) | Finished

  /** A response somebody is writing: the bytes still to come. */
  datatype Lock = Free | Held(who: Actor, r: Response, rest: string)

  /** answered is history: the line each written response answers. */
  datatype State = State(next: nat, reader: Reading, calls: map<nat, Progress>, lock: Lock, out: string,
                         answered: seq<(nat, Response)>)

  const INITIAL := State(0, AtLine, map[], Free, "", [])

  datatype Server = Server(lines: seq<Line>, encode: Response -> string)
  {
    /** json.Marshal prints one line. */
    ghost predicate Valid() {
      forall r :: '\n' !in encode(r)
    }

    /** The line a response to `line` is about while it is being written. */
    function LineOf(s: State, who: Actor): nat {
      match who case Reader => if s.next > 0 then s.next - 1 else 0 case Call(k) => k
    }

    ghost predicate Scan(s: State, t: State) {
      && s.reader.AtLine? && s.next < |lines|
      && var line := lines[s.next];
      if AnsweredByReader(line) then
        t.reader.Wants? && Answers(t.reader.r, line) && t == s.(next := s.next + 1, reader := t.reader)
      else if line.Request? then
        t == s.(next := s.next + 1, calls := s.calls[s.next := Running])
      else
        t == s.(next := s.next + 1)
    }

    ghost predicate EndOfInput(s: State, t: State) {
      s.reader.AtLine? && s.next == |lines| && t == s.(reader := Waiting)
    }

    ghost predicate Return(s: State, t: State) {
      s.reader.Waiting? && (forall k <- s.calls :: s.calls[k].Finished?) && t == s.(reader := Returned)
    }

    /** The tool returns some text. */
    ghost predicate ToolDone(s: State, t: State, k: nat) {
      && k in s.calls && s.calls[k].Running? && k < |lines|
      && k in t.calls && t.calls[k].Ready? && Answers(t.calls[k].r, lines[k])
      && t == s.(calls := s.calls[k := t.calls[k]])
    }

    ghost predicate Acquire(s: State, t: State, who: Actor) {
      && s.lock.Free?
      && match who
         case Reader => s.reader.Wants? && t == s.(lock := Held(Reader, s.reader.r, encode(s.reader.r) + "\n"))
         case Call(k) =>
           k in s.calls && s.calls[k].Ready?
           && t == s.(lock := Held(who, s.calls[k].r, encode(s.calls[k].r) + "\n"))
    }

    /** The holder of the lock puts one more character on the pipe. */
    ghost predicate Emit(s: State, t: State) {
      && s.lock.Held? && s.lock.rest != ""
      && t == s.(out := s.out + s.lock.rest[..1], lock := s.lock.(rest := s.lock.rest[1..]))
    }

    ghost predicate Release(s: State, t: State) {
      && s.lock.Held? && s.lock.rest == ""
      && var done := s.(lock := Free, answered := s.answered + [(LineOf(s, s.lock.who), s.lock.r)]);
      t == match s.lock.who
           case Reader => done.(reader := AtLine)
           case Call(k) => done.(calls := s.calls[k := Finished])
    }

    ghost predicate Next(s: State, t: State) {
      || Scan(s, t) || EndOfInput(s, t) || Return(s, t) || Emit(s, t) || Release(s, t)
      || (exists k :: ToolDone(s, t, k)) || (exists who :: Acquire(s, t, who))
    }

    ghost predicate IsRun(h: seq<State>) {
      h != [] && h[0] == INITIAL && forall i | 0 <= i < |h| - 1 :: Next(h[i], h[i + 1])
    }

    // -------------------------------------------------------------- what every state keeps

    /** The whole lines written so far, in order. */
    function Written(answered: seq<(nat, Response)>): string {
      if answered == [] then "" else Written(answered[..|answered| - 1]) + encode(answered[|answered| - 1].1) + "\n"
    }

    ghost predicate PipeHolds(s: State) {
      match s.lock
      case Free => s.out == Written(s.answered)
      case Held(who, r, rest) => s.out + rest == Written(s.answered) + encode(r) + "\n"
    }

    ghost predicate HolderHolds(s: State) {
      match s.lock
      case Free => true
      case Held(Reader, r, _) => s.reader == Wants(r)
      case Held(Call(k), r, _) => k in s.calls && s.calls[k] == Ready(r)
    }

    ghost predicate CallsHold(s: State) {
      && s.next <= |lines|
      && (s.reader.Wants? ==>
            s.next > 0 && Answers(s.reader.r, lines[s.next - 1]) && AnsweredByReader(lines[s.next - 1]))
      && (s.reader.Waiting? || s.reader.Returned? ==> s.next == |lines|)
      && (s.reader.Returned? ==> forall k <- s.calls :: s.calls[k].Finished?)
      && (forall k: nat :: k in s.calls <==> k < s.next && lines[k].Request? && lines[k].what.CallTool?)
      && (forall k <- s.calls :: s.calls[k].Ready? ==> Answers(s.calls[k].r, lines[k]))
    }

    /** The line has been read and its response wholly written. */
    predicate Settled(s: State, k: nat)
      requires k < |lines|
    {
      && k < s.next && Answerable(lines[k])
      && (if AnsweredByReader(lines[k]) then !(s.reader.Wants? && k == s.next - 1)
          else k in s.calls && s.calls[k].Finished?)
    }

    /** How many written responses answer line k. */
    function Times(answered: seq<(nat, Response)>, k: nat): nat {
      if answered == [] then 0
      else Times(answered[..|answered| - 1], k) + if answered[|answered| - 1].0 == k then 1 else 0
    }

    ghost predicate AnswersHold(s: State) {
      && (forall i | 0 <= i < |s.answered| ::
            s.answered[i].0 < |lines| && Answers(s.answered[i].1, lines[s.answered[i].0]))
      && (forall k: nat | k < |lines| :: Times(s.answered, k) == if Settled(s, k) then 1 else 0)
    }

    ghost predicate Inv(s: State) {
      CallsHold(s) && HolderHolds(s) && PipeHolds(s) && AnswersHold(s)
    }

    lemma PipeStep(s: State, t: State)
      requires Inv(s) && Next(s, t)
      ensures PipeHolds(t)
    {
      if Emit(s, t) {
        assert t.out + t.lock.rest == s.out + s.lock.rest;
      } else if Release(s, t) {
        assert t.answered[..|s.answered|] == s.answered;
      }
    }

    lemma CallsStep(s: State, t: State)
      requires Inv(s) && Next(s, t)
      ensures CallsHold(t)
    {
      if Scan(s, t) {
        CallsAfterScan(s, t);
      } else if Release(s, t) {
        CallsAfterRelease(s, t);
      } else if exists k :: ToolDone(s, t, k) {
        var k :| ToolDone(s, t, k);
        CallsAfterTool(s, t, k);
      } else {
        CallsUnchanged(s, t);
      }
    }

    lemma CallsAfterScan(s: State, t: State)
      requires CallsHold(s) && Scan(s, t)
      ensures CallsHold(t)
    {}

    lemma CallsAfterRelease(s: State, t: State)
      requires CallsHold(s) && HolderHolds(s) && Release(s, t)
      ensures CallsHold(t)
    {}

    lemma CallsAfterTool(s: State, t: State, k: nat)
      requires CallsHold(s) && ToolDone(s, t, k)
      ensures CallsHold(t)
    {}

    lemma CallsUnchanged(s: State, t: State)
      requires CallsHold(s) && t.calls == s.calls && t.next == s.next
      requires t.reader == s.reader || EndOfInput(s, t) || Return(s, t)
      ensures CallsHold(t)
    {}

    lemma HolderStep(s: State, t: State)
      requires Inv(s) && Next(s, t)
      ensures HolderHolds(t)
    {}

    lemma ReleaseStep(s: State, t: State)
      requires Inv(s) && Release(s, t)
      ensures AnswersHold(t)
    {
      var j := LineOf(s, s.lock.who);
      assert t.answered[..|s.answered|] == s.answered;
      forall k: nat | k < |lines| ensures Settled(t, k) <==> Settled(s, k) || k == j {
      }
      assert !Settled(s, j);
    }

    lemma AnswersStep(s: State, t: State)
      requires Inv(s) && Next(s, t) && CallsHold(t)
      ensures AnswersHold(t)
    {
      if Release(s, t) {
        ReleaseStep(s, t);
      } else {
        forall k: nat | k < |lines| ensures Settled(t, k) <==> Settled(s, k) {
        }
      }
    }

    lemma {:induction false} EveryStateHolds(h: seq<State>, i: nat)
      requires IsRun(h) && i < |h|
      ensures Inv(h[i])
    {
      if i > 0 {
        EveryStateHolds(h, i - 1);
        assert Next(h[i - 1], h[i]);
        CallsStep(h[i - 1], h[i]);
        HolderStep(h[i - 1], h[i]);
        PipeStep(h[i - 1], h[i]);
        AnswersStep(h[i - 1], h[i]);
      }
    }

    // -------------------------------------------------------------- when the server returns

    function Responses(answered: seq<(nat, Response)>): seq<string> {
      seq(|answered|, i requires 0 <= i < |answered| => encode(answered[i].1))
    }

    lemma {:induction false} WrittenIsJoined(answered: seq<(nat, Response)>)
      ensures Written(answered) == Join(Responses(answered) + [""], "\n")
    {
      if answered != [] {
        var n := |answered| - 1;
        WrittenIsJoined(answered[..n]);
        var before, last := Responses(answered[..n]), encode(answered[n].1);
        assert Responses(answered) + [""] == before + [last, ""];
        assert Join([last, ""], "\n") == last + "\n";
        if before == [] {
          assert before + [last, ""] == [last, ""] && before + [""] == [""];
        } else {
          JoinConcat(before, [last, ""], "\n");
          JoinConcat(before, [""], "\n");
        }
      }
    }

    lemma WrittenLines(answered: seq<(nat, Response)>)
      requires Valid()
      ensures Split(Written(answered), '\n') == Responses(answered) + [""]
    {
      WrittenIsJoined(answered);
      var parts := Responses(answered) + [""];
      forall k | 0 <= k < |parts| ensures '\n' !in parts[k] {
        if k < |answered| {
          assert parts[k] == encode(answered[k].1);
        }
      }
      SplitOfJoin(Responses(answered) + [""], '\n');
    }

    /** In every interleaving: when the server returns, each request with a
        non-null id and each unparseable line has been answered exactly once,
        with its own id and code; nothing else has; and the pipe carries exactly
        those responses, one whole line each. */
    lemma AllAnsweredOnceOnReturn(h: seq<State>)
      requires Valid() && IsRun(h) && h[|h| - 1].reader.Returned?
      ensures var s := h[|h| - 1];
              && (forall k: nat | k < |lines| ::
                    Times(s.answered, k) == if lines[k].Unparseable? || lines[k].Request? then 1 else 0)
              && (forall i | 0 <= i < |s.answered| :: s.answered[i].0 < |lines| &&
                    var r := s.answered[i].1;
                    match lines[s.answered[i].0]
                    case Unparseable => r.id == "null" && r.code == -32700
                    case Request(id, Unknown) => r.id == id && r.code == -32601
                    case Request(id, BadCall) => r.id == id && r.code == -32602
                    case Request(id, _) => r.id == id && r.code == 0
                    case _ => false)
              && Split(s.out, '\n') == Responses(s.answered) + [""]
    {
      EveryStateHolds(h, |h| - 1);
      var s := h[|h| - 1];
      WrittenLines(s.answered);
      forall k: nat | k < |lines| && Answerable(lines[k]) ensures Settled(s, k) {
      }
    }

    // -------------------------------------------------------------- and it does return

    function Pending(s: State, k: nat): nat {
      if k !in s.calls then 0 else match s.calls[k] case Running => 3 case Ready(_) => 2 case Finished => 0
    }

    function PendingCalls(s: State, upTo: nat): nat {
      if upTo == 0 then 0 else PendingCalls(s, upTo - 1) + Pending(s, upTo - 1)
    }

    /** What is left to do, not counting characters. */
    function Work(s: State): int {
      5 * (|lines| - s.next)
      + (match s.reader case AtLine => 2 case Wants(_) => 4 case Waiting => 1 case Returned => 0)
      + (if s.lock.Free? then 1 else 0)
      + PendingCalls(s, |lines|)
    }

    function CharsLeft(s: State): nat {
      if s.lock.Held? then |s.lock.rest| else 0
    }

    lemma {:induction false} PendingAfter(s: State, t: State, k: nat, upTo: nat)
      requires forall j: nat | j != k :: Pending(t, j) == Pending(s, j)
      ensures PendingCalls(t, upTo) == PendingCalls(s, upTo) + if k < upTo then Pending(t, k) - Pending(s, k) else 0
    {
      if upTo > 0 {
        PendingAfter(s, t, k, upTo - 1);
      }
    }

    ghost predicate Less(t: State, s: State) {
      0 <= Work(t) && (Work(t) < Work(s) || (Work(t) == Work(s) && CharsLeft(t) < CharsLeft(s)))
    }

    lemma ScanRunsOut(s: State, t: State)
      requires Inv(s) && Scan(s, t)
      ensures Less(t, s)
    {
      PendingAfter(s, t, s.next, |lines|);
    }

    lemma ToolRunsOut(s: State, t: State, k: nat)
      requires Inv(s) && ToolDone(s, t, k)
      ensures Less(t, s)
    {
      PendingAfter(s, t, k, |lines|);
    }

    lemma ReleaseRunsOut(s: State, t: State)
      requires Inv(s) && Release(s, t)
      ensures Less(t, s)
    {
      PendingAfter(s, t, if s.lock.who.Call? then s.lock.who.line else |lines|, |lines|);
    }

    lemma OtherRunsOut(s: State, t: State)
      requires Inv(s) && (EndOfInput(s, t) || Return(s, t) || Emit(s, t) || exists who :: Acquire(s, t, who))
      ensures Less(t, s)
    {
      PendingAfter(s, t, |lines|, |lines|);
    }

    /** Every step leaves less to do, or as much and fewer characters to write:
        no run goes on for ever. */
    lemma StepsRunOut(s: State, t: State)
      requires Inv(s) && Next(s, t)
      ensures Inv(t) && Less(t, s)
    {
      CallsStep(s, t);
      PipeStep(s, t);
      AnswersStep(s, t);
      if k :| ToolDone(s, t, k) {
        ToolRunsOut(s, t, k);
      } else if Scan(s, t) {
        ScanRunsOut(s, t);
      } else if Release(s, t) {
        ReleaseRunsOut(s, t);
      } else {
        OtherRunsOut(s, t);
      }
    }

    /** No state short of Returned is stuck: the lock is never waited for in vain. */
    lemma NeverStuck(s: State) returns (t: State)
      requires Inv(s) && !s.reader.Returned?
      ensures Next(s, t)
    {
      if s.lock.Held? {
        if s.lock.rest != "" {
          t := s.(out := s.out + s.lock.rest[..1], lock := s.lock.(rest := s.lock.rest[1..]));
          assert Emit(s, t);
        } else {
          var done := s.(lock := Free, answered := s.answered + [(LineOf(s, s.lock.who), s.lock.r)]);
          t := match s.lock.who
               case Reader => done.(reader := AtLine)
               case Call(k) => done.(calls := s.calls[k := Finished]);
          assert Release(s, t);
        }
      } else if k :| k in s.calls && s.calls[k].Ready? {
        t := s.(lock := Held(Call(k), s.calls[k].r, encode(s.calls[k].r) + "\n"));
        assert Acquire(s, t, Call(k));
      } else if k :| k in s.calls && s.calls[k].Running? {
        t := s.(calls := s.calls[k := Ready(Response(lines[k].id, 0, ""))]);
        assert ToolDone(s, t, k);
      } else if s.reader.Wants? {
        t := s.(lock := Held(Reader, s.reader.r, encode(s.reader.r) + "\n"));
        assert Acquire(s, t, Reader);
      } else if s.reader.Waiting? {
        t := s.(reader := Returned);
        assert Return(s, t);
      } else if s.next == |lines| {
        t := s.(reader := Waiting);
        assert EndOfInput(s, t);
      } else {
        var line := lines[s.next];
        t := s.(next := s.next + 1);
        if AnsweredByReader(line) {
          var r := if line.Unparseable? then Response(NULL_ID, PARSE_ERROR, "")
                   else Response(line.id, Code(line.what), "");
          t := t.(reader := Wants(r));
        } else if line.Request? {
          t := t.(calls := s.calls[s.next := Running]);
        }
        assert Scan(s, t);
      }
    }

    /** So every interleaving, cut anywhere, can be carried on to the return. */
    lemma {:induction false} Returns(h: seq<State>) returns (g: seq<State>)
      requires IsRun(h)
      ensures IsRun(g) && h <= g && g[|g| - 1].reader.Returned?
      decreases Work(h[|h| - 1]), CharsLeft(h[|h| - 1])
    {
      var s := h[|h| - 1];
      EveryStateHolds(h, |h| - 1);
      if s.reader.Returned? {
        g := h;
      } else {
        var t := NeverStuck(s);
        StepsRunOut(s, t);
        var longer := h + [t];
        assert forall i | 0 <= i < |longer| - 1 :: Next(longer[i], longer[i + 1]) by {
          forall i | 0 <= i < |longer| - 1 ensures Next(longer[i], longer[i + 1]) {
            if i < |h| - 1 {
              assert Next(h[i], h[i + 1]);
            }
          }
        }
        g := Returns(longer);
      }
    }
  }
}
