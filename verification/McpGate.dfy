/** The session tools of `rysh mcp serve` (cmd/rysh/mcp_serve.go): which tools
    exist, how a pane is named, and the policy gate before every write. */
module McpGate {
  import opened Text

  // ---------------------------------------------------------------- naming a pane

  datatype Pane = Pane(id: string, givenName: string, title: string)

  datatype Field = ById | ByGivenName | ByTitle

  function Named(p: Pane, f: Field): string {
    match f case ById => p.id case ByGivenName => p.givenName case ByTitle => p.title
  }

  function Hits(panes: seq<Pane>, f: Field, ref: string): seq<Pane> {
    if panes == [] then []
    else (if Named(panes[0], f) == ref then [panes[0]] else []) + Hits(panes[1..], f, ref)
  }

  datatype Resolution = Found(pane: Pane) | NoRef | Ambiguous(hits: nat) | NotFound

  function ResolvePane(panes: seq<Pane>, name: string): Resolution {
    var ref := TrimSpace(name);
    var ids, givens, titles := Hits(panes, ById, ref), Hits(panes, ByGivenName, ref), Hits(panes, ByTitle, ref);
    if ref == "" then NoRef
    else if ids != [] then Found(ids[0])
    else if |givens| == 1 then Found(givens[0])
    else if |givens| > 1 then Ambiguous(|givens|)
    else if |titles| == 1 then Found(titles[0])
    else if |titles| > 1 then Ambiguous(|titles|)
    else NotFound
  }

  predicate OnlyAt(panes: seq<Pane>, f: Field, ref: string, i: nat) {
    i < |panes| && forall j | 0 <= j < |panes| :: Named(panes[j], f) == ref <==> j == i
  }

  predicate Nobody(panes: seq<Pane>, f: Field, ref: string) {
    forall j | 0 <= j < |panes| :: Named(panes[j], f) != ref
  }

  lemma {:induction false} HitsNobody(panes: seq<Pane>, f: Field, ref: string)
    ensures var hits := Hits(panes, f, ref);
            (hits == [] <==> Nobody(panes, f, ref)) && (hits != [] ==> hits[0] in panes && Named(hits[0], f) == ref)
  {
    if panes != [] {
      HitsNobody(panes[1..], f, ref);
      NobodyElse(panes, f, ref);
    }
  }

  lemma NobodyElse(panes: seq<Pane>, f: Field, ref: string)
    requires panes != []
    ensures Nobody(panes, f, ref) <==> Named(panes[0], f) != ref && Nobody(panes[1..], f, ref)
  {
    forall j | 0 < j < |panes| ensures panes[j] == panes[1..][j - 1] {
    }
    if Nobody(panes, f, ref) {
      forall j | 0 <= j < |panes[1..]| ensures Named(panes[1..][j], f) != ref {
        assert panes[1..][j] == panes[j + 1];
      }
    }
  }

  lemma {:induction false} HitsOnly(panes: seq<Pane>, f: Field, ref: string, i: nat)
    requires OnlyAt(panes, f, ref, i)
    ensures Hits(panes, f, ref) == [panes[i]]
  {
    if i == 0 {
      HitsNobody(panes[1..], f, ref);
    } else {
      assert Named(panes[0], f) != ref;
      ShiftOnly(panes, f, ref, i - 1);
      HitsOnly(panes[1..], f, ref, i - 1);
    }
  }

  lemma {:induction false} SingleHit(panes: seq<Pane>, f: Field, ref: string) returns (i: nat)
    requires |Hits(panes, f, ref)| == 1
    ensures OnlyAt(panes, f, ref, i)
  {
    if Named(panes[0], f) == ref {
      HitsNobody(panes[1..], f, ref);
      i := 0;
      assert forall j | 0 < j < |panes| :: panes[j] == panes[1..][j - 1];
    } else {
      i := SingleHit(panes[1..], f, ref);
      ShiftOnly(panes, f, ref, i);
      i := i + 1;
    }
  }

  lemma ShiftOnly(panes: seq<Pane>, f: Field, ref: string, i: nat)
    requires panes != [] && Named(panes[0], f) != ref
    ensures OnlyAt(panes[1..], f, ref, i) <==> OnlyAt(panes, f, ref, i + 1)
  {
    var rest := panes[1..];
    if OnlyAt(rest, f, ref, i) {
      forall j | 0 <= j < |panes| ensures Named(panes[j], f) == ref <==> j == i + 1 {
        assert j > 0 ==> panes[j] == rest[j - 1];
      }
    }
    if OnlyAt(panes, f, ref, i + 1) {
      forall j | 0 <= j < |rest| ensures Named(rest[j], f) == ref <==> j == i {
        assert rest[j] == panes[j + 1];
      }
    }
  }

  /** A pane is found by its id, or as the only one with that given name, or, when
      no pane has that given name, as the only one with that title; a name
      several panes share is refused, never guessed. */
  lemma ResolvedNeverGuesses(panes: seq<Pane>, name: string)
    ensures var ref, r := TrimSpace(name), ResolvePane(panes, name);
            if ref == "" then r == NoRef
            else if exists p <- panes :: p.id == ref then r.Found? && r.pane in panes && r.pane.id == ref
            else if exists p <- panes :: p.givenName == ref then
              if exists i: nat :: OnlyAt(panes, ByGivenName, ref, i)
              then r.Found? && r.pane in panes && r.pane.givenName == ref else r.Ambiguous?
            else if exists p <- panes :: p.title == ref then
              if exists i: nat :: OnlyAt(panes, ByTitle, ref, i)
              then r.Found? && r.pane in panes && r.pane.title == ref else r.Ambiguous?
            else r == NotFound
  {
    var ref := TrimSpace(name);
    forall f ensures Hits(panes, f, ref) == [] <==> Nobody(panes, f, ref) {
      HitsNobody(panes, f, ref);
    }
    forall f ensures Nobody(panes, f, ref) <==> forall p <- panes :: Named(p, f) != ref {
    }
    forall f, i: nat | OnlyAt(panes, f, ref, i) ensures Hits(panes, f, ref) == [panes[i]] {
      HitsOnly(panes, f, ref, i);
    }
    forall f | |Hits(panes, f, ref)| == 1 ensures exists i: nat :: OnlyAt(panes, f, ref, i) {
      var i := SingleHit(panes, f, ref);
    }
    HitsNobody(panes, ById, ref);
    HitsNobody(panes, ByGivenName, ref);
    HitsNobody(panes, ByTitle, ref);
  }

  // ---------------------------------------------------------------- tools

  const READ_TOOLS: seq<string> := ["list_panes", "read_pane", "read_board", "list_channels", "wait_for_pane_state"]
  const WRITE_TOOLS: seq<string> := ["send_input", "board_post", "channel_send", "start_pane"]

  function Specs(allowWrite: bool): seq<string> {
    if allowWrite then READ_TOOLS + WRITE_TOOLS else READ_TOOLS
  }

  /** call's two refusals before anything is looked at. */
  predicate RefusedTool(name: string, allowWrite: bool) {
    name !in READ_TOOLS + WRITE_TOOLS || (name in WRITE_TOOLS && !allowWrite)
  }

  /** tools/list shows exactly what tools/call does not refuse. */
  lemma SpecsAreTheEnabledTools(name: string, allowWrite: bool)
    ensures name in Specs(allowWrite) <==> !RefusedTool(name, allowWrite)
  {
    ReadsOnly(name);
  }

  lemma ReadsOnly(name: string)
    ensures name in READ_TOOLS ==> name !in WRITE_TOOLS
  {
    forall i | 0 <= i < |READ_TOOLS| ensures READ_TOOLS[i][0] in {'l', 'r', 'w'} {
    }
    forall i | 0 <= i < |WRITE_TOOLS| ensures WRITE_TOOLS[i][0] in {'s', 'b', 'c'} {
    }
  }

  // ---------------------------------------------------------------- effects on the session

  datatype GateRequest = GateRequest(tool: string, target: string, shell: string)

  datatype Write =
    | SendInput(pane: string, text: string, mode: string)
    | BoardPost(asPane: string, text: string, thread: string, board: string)
    | ChannelSend(humanoid: string, channel: string, recipient: string, text: string, thread: string)
    | RyshCommand(near: string, command: string)

  datatype Effect = Asked(req: GateRequest, ok: bool) | Wrote(write: Write)

  /** What the gate has to be asked before a write: the same tool, the pane,
      poster, channel or place it acts on, and the shell text it would run. */
  function Clearance(w: Write): GateRequest {
    match w
    case SendInput(pane, text, mode) => GateRequest("send_input", pane, if mode == "shell" then text else "")
    case BoardPost(asPane, _, _, _) => GateRequest("board_post", asPane, "")
    case ChannelSend(humanoid, channel, _, _, _) => GateRequest("channel_send", humanoid + "/" + channel, "")
    case RyshCommand(near, _) => GateRequest("start_pane", near, "")
  }

  datatype Args = Args(
    pane: string, input: string, mode: string, asPane: string, text: string, thread: string, board: string,
    humanoid: string, channel: string, recipient: string, kind: string, prompt: string, agent: string,
    nearPane: string)

  /** How the session answers one call: its panes (None: no answer), the gate, and
      whether the write and each read succeed. */
  datatype Session = Session(panes: Option<seq<Pane>>, gateAnswers: bool, gateOk: bool, works: bool)

  predicate Blank(s: string) { TrimSpace(s) == "" }

  predicate AgentName(s: string) {
    1 <= |s| <= 64 && forall i | 0 <= i < |s| ::
      IsDigit(s[i]) || 'a' <= s[i] <= 'z' || 'A' <= s[i] <= 'Z' || s[i] in {'.', '_', '-'}
  }

  /** No line break and no "##". */
  predicate OneLine(s: string) {
    '\r' !in s && '\n' !in s && forall i | 0 <= i < |s| - 1 :: !(s[i] == '#' && s[i + 1] == '#')
  }

  /** The ## command a start_pane runs; None is a refusal. */
  function StartCommand(a: Args): Option<string> {
    var prompt := TrimSpace(a.prompt);
    if !OneLine(prompt) then None
    else if a.kind == "shell" then Some("pane new")
    else if a.kind == "claude" then Some(TrimSpace("pane new --claude " + prompt))
    else if a.kind == "agent" && AgentName(a.agent) then Some(TrimSpace("agent spawn " + a.agent + " " + prompt))
    else None
  }

  function SendWrite(a: Args, s: Session): Option<Write> {
    var mode := if a.mode == "" then "shell" else a.mode;
    if Blank(a.input) || (mode != "shell" && mode != "prompt") || s.panes.None? then None
    else match ResolvePane(s.panes.value, a.pane)
      case Found(p) => Some(SendInput(p.id, a.input, mode))
      case _ => None
  }

  function PostWrite(a: Args): Option<Write> {
    if Blank(a.asPane) || Blank(a.text) then None else Some(BoardPost(a.asPane, a.text, a.thread, a.board))
  }

  function ChannelWrite(a: Args): Option<Write> {
    if Blank(a.humanoid) || Blank(a.channel) || Blank(a.recipient) || Blank(a.text) then None
    else Some(ChannelSend(a.humanoid, a.channel, a.recipient, a.text, a.thread))
  }

  function StartWrite(nearPane: string, command: Option<string>, s: Session): Option<Write> {
    if command.None? then None
    else if Blank(nearPane) then Some(RyshCommand("", command.value))
    else if s.panes.None? then None
    else match ResolvePane(s.panes.value, nearPane)
      case Found(p) => Some(RyshCommand(p.id, command.value))
      case _ => None
  }

  /** The write a call would make if the gate and the session let it; None when
      its arguments or the pane it names are refused first. */
  function Intended(name: string, a: Args, s: Session): Option<Write> {
    if name == "send_input" then SendWrite(a, s)
    else if name == "board_post" then PostWrite(a)
    else if name == "channel_send" then ChannelWrite(a)
    else if name == "start_pane" then StartWrite(a.nearPane, StartCommand(a), s)
    else None
  }

  /** Everything one call does to the session. args None: they do not parse. */
  function Trace(allowWrite: bool, name: string, args: Option<Args>, s: Session): seq<Effect> {
    if RefusedTool(name, allowWrite) || args.None? || Intended(name, args.value, s).None? then []
    else
      var w := Intended(name, args.value, s).value;
      var ok := s.gateAnswers && s.gateOk;
      [Asked(Clearance(w), ok)] + if ok then [Wrote(w)] else []
  }

  /** The client reads a success: the tool is listed, the arguments parse, the
      session answers, and a write tool has made its write. */
  predicate Succeeds(allowWrite: bool, name: string, args: Option<Args>, s: Session) {
    && name in Specs(allowWrite) && args.Some? && s.works
    && (name in WRITE_TOOLS ==> Intended(name, args.value, s).Some? && s.gateAnswers && s.gateOk)
  }

  lemma NoIntent(name: string, a: Args, s: Session)
    requires name !in WRITE_TOOLS
    ensures Intended(name, a, s).None?
  {
    assert WRITE_TOOLS[0] == "send_input" && WRITE_TOOLS[1] == "board_post";
    assert WRITE_TOOLS[2] == "channel_send" && WRITE_TOOLS[3] == "start_pane";
  }

  /** A pane of the session that the name stands for. */
  ghost predicate Names(s: Session, name: string, id: string) {
    && s.panes.Some? && TrimSpace(name) != ""
    && exists p <- s.panes.value :: p.id == id && TrimSpace(name) in [p.id, p.givenName, p.title]
  }

  /** The write comes right behind the gate's OK, asked for under the tool's own
      name, for the pane, poster, channel or place the write goes to, and with the
      very text a shell is to run. */
  lemma WriteIsCleared(allowWrite: bool, name: string, args: Option<Args>, s: Session)
    ensures var did := Trace(allowWrite, name, args, s);
            |did| <= 2 && (|did| > 0 ==> did[0].Asked?) && (|did| == 2 ==> did[1].Wrote?)
    ensures var did := Trace(allowWrite, name, args, s);
            |did| == 2 ==>
              && did[0].ok && did[1].Wrote?
              && var req := did[0].req;
              match did[1].write
              case SendInput(pane, text, mode) =>
                req.tool == "send_input" && req.target == pane && req.shell == (if mode == "shell" then text else "")
              case BoardPost(asPane, _, _, _) =>
                req.tool == "board_post" && req.target == asPane && req.shell == ""
              case ChannelSend(humanoid, channel, _, _, _) =>
                req.tool == "channel_send" && req.target == humanoid + "/" + channel && req.shell == ""
              case RyshCommand(near, _) =>
                req.tool == "start_pane" && req.target == near && req.shell == ""
  {
    if !RefusedTool(name, allowWrite) && args.Some? && Intended(name, args.value, s).Some? {
      var w, ok := Intended(name, args.value, s).value, s.gateAnswers && s.gateOk;
      assert Trace(allowWrite, name, args, s)
          == if ok then [Asked(Clearance(w), true), Wrote(w)] else [Asked(Clearance(w), false)];
    }
  }

  /** The write is the one the tool is named for, with the call's own arguments. */
  lemma WriteCarriesArguments(allowWrite: bool, name: string, args: Option<Args>, s: Session)
    ensures forall e <- Trace(allowWrite, name, args, s) :: allowWrite && args.Some? && (e.Wrote? ==>
              match e.write
              case SendInput(pane, text, mode) =>
                && name == "send_input" && Names(s, args.value.pane, pane) && text == args.value.input
                && mode == (if args.value.mode == "" then "shell" else args.value.mode)
              case BoardPost(asPane, text, thread, board) =>
                && name == "board_post" && asPane == args.value.asPane && text == args.value.text
                && thread == args.value.thread && board == args.value.board
              case ChannelSend(humanoid, channel, recipient, text, thread) =>
                && name == "channel_send" && humanoid == args.value.humanoid && channel == args.value.channel
                && recipient == args.value.recipient && text == args.value.text && thread == args.value.thread
              case RyshCommand(near, command) =>
                && name == "start_pane" && StartCommand(args.value) == Some(command)
                && (if TrimSpace(args.value.nearPane) == "" then near == "" else Names(s, args.value.nearPane, near)))
  {
    if args.Some? && s.panes.Some? {
      FoundIsNamed(s, args.value.pane);
      FoundIsNamed(s, args.value.nearPane);
    }
    if name !in WRITE_TOOLS && args.Some? {
      NoIntent(name, args.value, s);
    }
  }

  lemma FoundIsNamed(s: Session, name: string)
    requires s.panes.Some?
    ensures ResolvePane(s.panes.value, name).Found? ==> Names(s, name, ResolvePane(s.panes.value, name).pane.id)
  {
    forall f {
      HitsNobody(s.panes.value, f, TrimSpace(name));
    }
  }

  /** The gate is asked, once, if and only if the tool is a write tool the server
      allows and its arguments are complete; and the write is made if and only if
      the gate then answers OK. */
  lemma AskedIff(allowWrite: bool, name: string, args: Option<Args>, s: Session)
    ensures var did := Trace(allowWrite, name, args, s);
            |did| > 0 <==>
              allowWrite && args.Some? && var a := args.value;
              || (name == "send_input" && TrimSpace(a.input) != "" && a.mode in ["", "shell", "prompt"]
                  && s.panes.Some? && ResolvePane(s.panes.value, a.pane).Found?)
              || (name == "board_post" && TrimSpace(a.asPane) != "" && TrimSpace(a.text) != "")
              || (name == "channel_send" && TrimSpace(a.humanoid) != "" && TrimSpace(a.channel) != ""
                  && TrimSpace(a.recipient) != "" && TrimSpace(a.text) != "")
              || (name == "start_pane" && StartCommand(a).Some?
                  && (TrimSpace(a.nearPane) == "" || (s.panes.Some? && ResolvePane(s.panes.value, a.nearPane).Found?)))
    ensures var did := Trace(allowWrite, name, args, s);
            |did| > 0 ==> did[0].ok == (s.gateAnswers && s.gateOk) && (|did| == 2 <==> s.gateAnswers && s.gateOk)
  {
    SpecsAreTheEnabledTools(name, allowWrite);
    if name !in WRITE_TOOLS {
      assert WRITE_TOOLS[0] == "send_input" && WRITE_TOOLS[1] == "board_post";
      assert WRITE_TOOLS[2] == "channel_send" && WRITE_TOOLS[3] == "start_pane";
    }
    if args.Some? {
      CompleteArguments(name, args.value, s);
    }
  }

  lemma CompleteArguments(name: string, a: Args, s: Session)
    ensures Intended(name, a, s).Some? <==>
              || (name == "send_input" && TrimSpace(a.input) != "" && a.mode in ["", "shell", "prompt"]
                  && s.panes.Some? && ResolvePane(s.panes.value, a.pane).Found?)
              || (name == "board_post" && TrimSpace(a.asPane) != "" && TrimSpace(a.text) != "")
              || (name == "channel_send" && TrimSpace(a.humanoid) != "" && TrimSpace(a.channel) != ""
                  && TrimSpace(a.recipient) != "" && TrimSpace(a.text) != "")
              || (name == "start_pane" && StartCommand(a).Some?
                  && (TrimSpace(a.nearPane) == "" || (s.panes.Some? && ResolvePane(s.panes.value, a.nearPane).Found?)))
  {}

  class SessionTools {
    const allowWrite: bool
    var log: seq<Effect>

    constructor (allowWrite: bool)
      ensures this.allowWrite == allowWrite && log == []
    {
      this.allowWrite := allowWrite;
      log := [];
    }

    /** call: refuses, decodes, dispatches. */
    method CallTool(name: string, args: Option<Args>, s: Session) returns (isErr: bool)
      modifies this
      ensures log == old(log) + Trace(allowWrite, name, args, s)
      ensures !isErr <==> Succeeds(allowWrite, name, args, s)
      ensures !isErr <==> && args.Some? && s.works
                          && (name in READ_TOOLS || (name in WRITE_TOOLS && |log| == |old(log)| + 2))
      ensures forall i | |old(log)| <= i < |log| && log[i].Wrote? ::
                && i == |old(log)| + 1 == |log| - 1 && log[i - 1].Asked? && log[i - 1].ok
                && var req := log[i - 1].req;
                match log[i].write
                case SendInput(pane, text, mode) =>
                  && name == "send_input" && args.Some? && text == args.value.input
                  && mode == (if args.value.mode == "" then "shell" else args.value.mode)
                  && req == GateRequest("send_input", pane, if mode == "shell" then text else "")
                case BoardPost(asPane, text, thread, board) =>
                  && name == "board_post" && args.Some? && asPane == args.value.asPane && text == args.value.text
                  && thread == args.value.thread && board == args.value.board
                  && req == GateRequest("board_post", asPane, "")
                case ChannelSend(humanoid, channel, recipient, text, thread) =>
                  && name == "channel_send" && args.Some? && humanoid == args.value.humanoid
                  && channel == args.value.channel && recipient == args.value.recipient
                  && text == args.value.text && thread == args.value.thread
                  && req == GateRequest("channel_send", humanoid + "/" + channel, "")
                case RyshCommand(near, command) =>
                  && name == "start_pane" && args.Some? && StartCommand(args.value) == Some(command)
                  && req == GateRequest("start_pane", near, "")
    {
      WriteIsCleared(allowWrite, name, args, s);
      WriteCarriesArguments(allowWrite, name, args, s);
      if name in READ_TOOLS && args.Some? {
        ReadsOnly(name);
        NoIntent(name, args.value, s);
      }
      SpecsAreTheEnabledTools(name, allowWrite);
      if name !in READ_TOOLS + WRITE_TOOLS {
        return true;
      }
      if name in WRITE_TOOLS && !allowWrite {
        return true;
      }
      if args.None? {
        return true;
      }
      if name in WRITE_TOOLS {
        isErr := CallWriteTool(name, args.value, s);
      } else {
        NoIntent(name, args.value, s);
        isErr := !s.works;
      }
    }

    method CallWriteTool(name: string, a: Args, s: Session) returns (isErr: bool)
      requires name in WRITE_TOOLS
      modifies this
      ensures log == old(log) + Gated(Intended(name, a, s), s)
      ensures !isErr <==> Intended(name, a, s).Some? && s.gateAnswers && s.gateOk && s.works
    {
      if name == "send_input" {
        isErr := DoSendInput(a, s);
      } else if name == "board_post" {
        isErr := DoBoardPost(a, s);
      } else if name == "channel_send" {
        isErr := DoChannelSend(a, s);
      } else {
        assert name == "start_pane";
        var command := StartCommand(a);
        isErr := DoStartPane(a.nearPane, command, s);
      }
    }

    method Gate(req: GateRequest, s: Session) returns (ok: bool)
      modifies this
      ensures ok == (s.gateAnswers && s.gateOk) && log == old(log) + [Asked(req, ok)]
    {
      ok := s.gateAnswers && s.gateOk;
      log := log + [Asked(req, ok)];
    }

    method DoSendInput(a: Args, s: Session) returns (isErr: bool)
      modifies this
      ensures log == old(log) + Gated(SendWrite(a, s), s)
      ensures !isErr <==> SendWrite(a, s).Some? && s.gateAnswers && s.gateOk && s.works
    {
      if Blank(a.input) {
        return true;
      }
      var mode := a.mode;
      if mode == "" {
        mode := "shell";
      }
      if mode != "shell" && mode != "prompt" {
        return true;
      }
      if s.panes.None? {
        return true;
      }
      var r := ResolvePane(s.panes.value, a.pane);
      if !r.Found? {
        return true;
      }
      var shell := "";
      if mode == "shell" {
        shell := a.input;
      }
      var ok := Gate(GateRequest("send_input", r.pane.id, shell), s);
      if !ok {
        return true;
      }
      log := log + [Wrote(SendInput(r.pane.id, a.input, mode))];
      return !s.works;
    }

    method DoBoardPost(a: Args, s: Session) returns (isErr: bool)
      modifies this
      ensures log == old(log) + Gated(PostWrite(a), s)
      ensures !isErr <==> PostWrite(a).Some? && s.gateAnswers && s.gateOk && s.works
    {
      if Blank(a.asPane) || Blank(a.text) {
        return true;
      }
      var ok := Gate(GateRequest("board_post", a.asPane, ""), s);
      if !ok {
        return true;
      }
      log := log + [Wrote(BoardPost(a.asPane, a.text, a.thread, a.board))];
      return !s.works;
    }

    method DoChannelSend(a: Args, s: Session) returns (isErr: bool)
      modifies this
      ensures log == old(log) + Gated(ChannelWrite(a), s)
      ensures !isErr <==> ChannelWrite(a).Some? && s.gateAnswers && s.gateOk && s.works
    {
      if Blank(a.humanoid) || Blank(a.channel) || Blank(a.recipient) || Blank(a.text) {
        return true;
      }
      var ok := Gate(GateRequest("channel_send", a.humanoid + "/" + a.channel, ""), s);
      if !ok {
        return true;
      }
      log := log + [Wrote(ChannelSend(a.humanoid, a.channel, a.recipient, a.text, a.thread))];
      return !s.works;
    }

    method DoStartPane(nearPane: string, command: Option<string>, s: Session) returns (isErr: bool)
      modifies this
      ensures log == old(log) + Gated(StartWrite(nearPane, command, s), s)
      ensures !isErr <==> StartWrite(nearPane, command, s).Some? && s.gateAnswers && s.gateOk && s.works
    {
      if command.None? {
        return true;
      }
      var near := "";
      if !Blank(nearPane) {
        if s.panes.None? {
          return true;
        }
        var r := ResolvePane(s.panes.value, nearPane);
        if !r.Found? {
          return true;
        }
        near := r.pane.id;
      }
      var ok := Gate(GateRequest("start_pane", near, ""), s);
      if !ok {
        return true;
      }
      log := log + [Wrote(RyshCommand(near, command.value))];
      return !s.works;
    }
  }

  /** The gate, and behind it the write. */
  function Gated(w: Option<Write>, s: Session): seq<Effect> {
    if w.None? then []
    else
      var ok := s.gateAnswers && s.gateOk;
      [Asked(Clearance(w.value), ok)] + if ok then [Wrote(w.value)] else []
  }

  // ---------------------------------------------------------------- many calls at once

  datatype Call = Call(name: string, args: Option<Args>, session: Session)

  /** What call c did, in order. */
  function Of(history: seq<(nat, Effect)>, c: nat): seq<Effect> {
    if history == [] then []
    else
      var before := Of(history[..|history| - 1], c);
      var (who, e) := history[|history| - 1];
      if who == c then before + [e] else before
  }

  /** Concurrent calls interleave freely; each has done a beginning of its trace. */
  ghost predicate IsHistory(allowWrite: bool, calls: seq<Call>, history: seq<(nat, Effect)>) {
    && (forall i | 0 <= i < |history| :: history[i].0 < |calls|)
    && (forall c | 0 <= c < |calls| ::
          Of(history, c) <= Trace(allowWrite, calls[c].name, calls[c].args, calls[c].session))
  }

  lemma {:induction false} OfPrefix(history: seq<(nat, Effect)>, n: nat, c: nat)
    requires n <= |history|
    ensures Of(history[..n], c) <= Of(history, c)
  {
    var m := |history| - 1;
    if n <= m {
      OfPrefix(history[..m], n, c);
      assert history[..m][..n] == history[..n];
    } else {
      assert history[..n] == history;
    }
  }

  lemma {:induction false} OfMember(history: seq<(nat, Effect)>, c: nat, e: Effect) returns (j: nat)
    requires e in Of(history, c)
    ensures j < |history| && history[j] == (c, e)
  {
    var m := |history| - 1;
    if history[m] == (c, e) {
      j := m;
    } else {
      j := OfMember(history[..m], c, e);
    }
  }

  /** In every interleaving of any calls: a write follows an OK from the gate that
      the same call got for exactly that tool, target and shell text; and a
      read-only server never asks or writes. */
  lemma WritesAreGated(allowWrite: bool, calls: seq<Call>, history: seq<(nat, Effect)>, i: nat) returns (j: nat)
    requires IsHistory(allowWrite, calls, history) && i < |history|
    ensures allowWrite
    ensures history[i].1.Wrote? ==>
              && j < i && history[j].0 == history[i].0
              && history[j].1 == match history[i].1.write
                                 case SendInput(pane, text, mode) =>
                                   Asked(GateRequest("send_input", pane, if mode == "shell" then text else ""), true)
                                 case BoardPost(asPane, _, _, _) => Asked(GateRequest("board_post", asPane, ""), true)
                                 case ChannelSend(humanoid, channel, _, _, _) =>
                                   Asked(GateRequest("channel_send", humanoid + "/" + channel, ""), true)
                                 case RyshCommand(near, _) => Asked(GateRequest("start_pane", near, ""), true)
  {
    var (c, e) := history[i];
    var trace := Trace(allowWrite, calls[c].name, calls[c].args, calls[c].session);
    var upTo, before := Of(history[..i + 1], c), Of(history[..i], c);
    OfPrefix(history, i + 1, c);
    assert history[..i + 1][..i] == history[..i] && history[..i + 1][i] == history[i];
    assert upTo == before + [e] && upTo <= trace;
    assert trace[|before|] == e;
    OnlyWriteToolsAct(calls[c]);
    j := 0;
    if e.Wrote? {
      WriteIsCleared(allowWrite, calls[c].name, calls[c].args, calls[c].session);
      assert |before| == 1 && before[0] == trace[0];
      j := OfMember(history[..i], c, trace[0]);
    }
  }

  lemma OnlyWriteToolsAct(call: Call)
    ensures Trace(false, call.name, call.args, call.session) == []
  {
    if call.name !in WRITE_TOOLS {
      assert WRITE_TOOLS[0] == "send_input" && WRITE_TOOLS[1] == "board_post"
          && WRITE_TOOLS[2] == "channel_send" && WRITE_TOOLS[3] == "start_pane";
    }
  }

  function Writes(trace: seq<Effect>): nat {
    if trace == [] then 0 else (if trace[0].Wrote? then 1 else 0) + Writes(trace[1..])
  }

  lemma WritesOfTwo(trace: seq<Effect>)
    requires |trace| <= 2 && (|trace| > 0 ==> trace[0].Asked?)
    ensures Writes(trace) <= 1
  {
    if |trace| == 2 {
      assert trace[1..][1..] == [];
    }
  }

  /** Each call writes at most once. */
  lemma AtMostOneWrite(allowWrite: bool, calls: seq<Call>, history: seq<(nat, Effect)>, c: nat)
    requires IsHistory(allowWrite, calls, history) && c < |calls|
    ensures Writes(Of(history, c)) <= 1
  {
    var mine, trace := Of(history, c), Trace(allowWrite, calls[c].name, calls[c].args, calls[c].session);
    WriteIsCleared(allowWrite, calls[c].name, calls[c].args, calls[c].session);
    assert mine <= trace;
    assert |mine| > 0 ==> mine[0] == trace[0];
    WritesOfTwo(mine);
  }

  // ---------------------------------------------------------------- the command line

  lemma OneLineTrimmed(s: string)
    requires OneLine(s)
    ensures OneLine(TrimSpace(s))
  {
    var k := LeadingSpaces(s);
    var n := TrimmedLength(s[k..]);
    assert TrimSpace(s) == s[k..k + n];
    var t := TrimSpace(s);
    forall i | 0 <= i < n ensures t[i] == s[k + i] {
    }
  }

  lemma OneLineAfter(head: string, prompt: string)
    requires '#' !in head && '\r' !in head && '\n' !in head && OneLine(prompt)
    ensures OneLine(head + prompt)
  {
    var s := head + prompt;
    forall i | 0 <= i < |s| - 1 ensures !(s[i] == '#' && s[i + 1] == '#') {
      if i >= |head| {
        assert s[i] == prompt[i - |head|] && s[i + 1] == prompt[i - |head| + 1];
      }
    }
  }

  lemma AgentHead(agent: string)
    requires AgentName(agent)
    ensures var head := "agent spawn " + agent + " "; '#' !in head && '\r' !in head && '\n' !in head
  {
    assert '#' !in agent && '\r' !in agent && '\n' !in agent;
  }

  lemma OneLineIff(s: string)
    ensures OneLine(s) <==> '\r' !in s && '\n' !in s && !Contains(s, "##")
  {
    forall i | 0 <= i < |s| - 1 ensures s[i] == '#' && s[i + 1] == '#' <==> At(s, "##", i) {
      assert s[i..i + 2] == [s[i], s[i + 1]] && "##" == ['#', '#'];
    }
    if Contains(s, "##") {
      var i :| 0 <= i <= |s| && At(s, "##", i);
      assert s[i] == '#' && s[i + 1] == '#';
    }
  }

  lemma BuiltOnOneLine(a: Args)
    requires StartCommand(a).Some? && a.kind != "shell"
    ensures OneLine(StartCommand(a).value)
  {
    var prompt := TrimSpace(a.prompt);
    if a.kind == "claude" {
      OneLineAfter("pane new --claude ", prompt);
      OneLineTrimmed("pane new --claude " + prompt);
    } else {
      var head := "agent spawn " + a.agent + " ";
      AgentHead(a.agent);
      OneLineAfter(head, prompt);
      OneLineTrimmed(head + prompt);
    }
  }

  /** Free text cannot change what the command line means: whatever start_pane is
      given, the command it runs is one line with no "##" in it. */
  lemma StartCommandIsOneLine(a: Args)
    requires StartCommand(a).Some?
    ensures var command := StartCommand(a).value;
            '\r' !in command && '\n' !in command && !Contains(command, "##")
  {
    if a.kind == "shell" {
      assert StartCommand(a).value == "pane new";
    } else {
      BuiltOnOneLine(a);
    }
    OneLineIff(StartCommand(a).value);
  }

  lemma Untrimmed(s: string)
    requires s != "" && !IsSpace(s[0]) && !IsSpace(s[|s| - 1])
    ensures TrimSpace(s) == s
  {}

  lemma OneBlankTrimmed(s: string)
    requires s != "" && !IsSpace(s[0]) && !IsSpace(s[|s| - 1])
    ensures TrimSpace(s + " ") == s
  {
    var t := s + " ";
    assert t[|s|] == ' ' && t[..|s|] == s && TrimLeft(t) == t;
    assert TrimmedLength(t) == TrimmedLength(s) == |s|;
  }

  /** A trimmed prompt behind a command word, and a blank only when there is one. */
  lemma PromptBehind(head: string, s: string)
    requires head != "" && !IsSpace(head[0]) && !IsSpace(head[|head| - 1])
    ensures var prompt := TrimSpace(s);
            TrimSpace(head + " " + prompt) == if prompt == "" then head else head + " " + prompt
  {
    var prompt := TrimSpace(s);
    if prompt == "" {
      assert head + " " + prompt == head + " ";
      OneBlankTrimmed(head);
    } else {
      var all := head + " " + prompt;
      assert all[0] == head[0] && all[|all| - 1] == prompt[|prompt| - 1];
      Untrimmed(all);
    }
  }

  /** There is a command for a shell, for claude, and for an agent of a plain name,
      unless the prompt is of several lines or has a "##". */
  lemma StartCommandIff(a: Args)
    ensures var prompt := TrimSpace(a.prompt);
            StartCommand(a).Some? <==>
              && '\r' !in prompt && '\n' !in prompt && !Contains(prompt, "##")
              && (a.kind == "shell" || a.kind == "claude"
                  || (a.kind == "agent" && 1 <= |a.agent| <= 64
                      && forall i | 0 <= i < |a.agent| ::
                           var c := a.agent[i];
                           || 'a' <= c <= 'z' || 'A' <= c <= 'Z' || '0' <= c <= '9'
                           || c == '.' || c == '_' || c == '-'))
  {
    OneLineIff(TrimSpace(a.prompt));
  }

  lemma AgentBehind(agent: string, s: string)
    requires AgentName(agent)
    ensures var prompt := TrimSpace(s);
            TrimSpace("agent spawn " + agent + " " + prompt)
              == "agent spawn " + agent + if prompt == "" then "" else " " + prompt
  {
    AgentEnds("agent spawn ", agent);
    PromptBehind("agent spawn " + agent, s);
    Appended("agent spawn " + agent, TrimSpace(s));
  }

  lemma AgentEnds(word: string, agent: string)
    requires AgentName(agent) && word != "" && !IsSpace(word[0])
    ensures var head := word + agent; !IsSpace(head[0]) && !IsSpace(head[|head| - 1])
  {
    var head := word + agent;
    assert head[0] == word[0] && head[|head| - 1] == agent[|agent| - 1];
  }

  lemma Appended(head: string, prompt: string)
    ensures head + (if prompt == "" then "" else " " + prompt) == if prompt == "" then head else head + " " + prompt
  {}

  lemma ClaudeBehind(s: string)
    ensures var prompt := TrimSpace(s);
            TrimSpace("pane new --claude " + prompt)
              == "pane new --claude" + if prompt == "" then "" else " " + prompt
  {
    PromptBehind("pane new --claude", s);
    assert "pane new --claude " == "pane new --claude" + " ";
    Appended("pane new --claude", TrimSpace(s));
  }

  /** The prompt comes last, trimmed, and an empty one leaves no blank behind. */
  lemma StartCommandSays(a: Args)
    requires StartCommand(a).Some?
    ensures var prompt, command := TrimSpace(a.prompt), StartCommand(a).value;
            && (a.kind == "shell" ==> command == "pane new")
            && (a.kind == "claude" ==>
                  command == "pane new --claude" + if prompt == "" then "" else " " + prompt)
            && (a.kind == "agent" ==>
                  command == "agent spawn " + a.agent + if prompt == "" then "" else " " + prompt)
  {
    if a.kind == "claude" {
      ClaudeBehind(a.prompt);
    } else if a.kind == "agent" {
      AgentBehind(a.agent, a.prompt);
    }
  }
}
