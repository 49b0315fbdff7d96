/** The onboarding wizard (cmd/rysh/onboard_cmd.go): key presses and the answers
    of an asynchronous validation ping that carries no token. */
module Wizard {
  import opened Text

  datatype Step =
    | PickProvider | EnterModel | EnterKey | Validating | ValidateResult
    | EnterShell | EnterLayout | Launch | Done

  datatype Provider = Provider(name: string, defaultModel: string, keyEnv: string, keyOptional: bool)

  const PROVIDERS: seq<Provider> := [
    Provider("anthropic", "claude-sonnet-5", "ANTHROPIC_API_KEY", false),
    Provider("openai", "gpt-4o", "OPENAI_API_KEY", false),
    Provider("ollama", "llama3.1", "OLLAMA_API_KEY", true)]

  datatype KeySpec = KeySpec(ref: string, envName: string, literal: string)

  /** What validateCmd captured when it was issued. */
  datatype Ping = Ping(provider: Provider, model: string, key: KeySpec)

  datatype Answer = Reachable(detail: string) | Failed(text: string)

  datatype Prefs = Prefs(shell: string, tabs: int, panes: int)

  /** The model Bubble Tea hands to Update and gets back. */
  datatype Model = Model(
    step: Step, cursor: int, provider: Provider, model: string, key: KeySpec, input: string,
    valDetail: string, valErr: string, skippedCheck: bool, prefs: Prefs,
    configPath: string, launchNow: bool, failed: bool)
  {
    function Current(): Ping { Ping(provider, model, key) }
  }

  /** The configuration in effect and $SHELL. */
  datatype Config = Config(providerName: string, model: string, fallbackShell: string)

  // ---------------------------------------------------------------- pure helpers

  function MoveCursor(cur: int, delta: int, n: int): (r: int)
    ensures n > 0 ==> 0 <= r < n
    ensures n > 0 && 0 <= cur + delta < n ==> r == cur + delta
  {
    if n <= 0 then 0
    else if cur + delta < 0 then 0
    else if cur + delta >= n then n - 1
    else cur + delta
  }

  predicate NameStart(c: char) { 'a' <= c <= 'z' || 'A' <= c <= 'Z' || c == '_' }

  predicate NameChar(c: char) { NameStart(c) || IsDigit(c) }

  /** Where the run of name characters from i ends. */
  function NameEnd(s: string, i: nat): (j: nat)
    requires i <= |s|
    ensures i <= j <= |s| && (j < |s| ==> !NameChar(s[j]))
    ensures forall k | i <= k < j :: NameChar(s[k])
    decreases |s| - i
  {
    if i < |s| && NameChar(s[i]) then NameEnd(s, i + 1) else i
  }

  /** The name of the reference ${NAME} that starts at i. */
  function RefAt(s: string, i: nat): Option<string>
    requires i <= |s|
  {
    if At(s, "${", i) && i + 2 < |s| && NameStart(s[i + 2]) then
      var j := NameEnd(s, i + 2);
      if j < |s| && s[j] == '}' then Some(s[i + 2..j]) else None
    else None
  }

  function FirstRef(s: string, i: nat := 0): Option<string>
    requires i <= |s|
    decreases |s| - i
  {
    if RefAt(s, i).Some? then RefAt(s, i) else if i == |s| then None else FirstRef(s, i + 1)
  }

  function Reference(name: string): string { "${" + name + "}" }

  function NormalizeKeyInput(p: Provider, raw: string): KeySpec {
    var text := TrimSpace(raw);
    if text == "" then KeySpec("", "", "")
    else match FirstRef(text)
      case Some(name) => KeySpec(text, name, "")
      case None => KeySpec(Reference(p.keyEnv), p.keyEnv, text)
  }

  predicate ValidName(name: string) {
    name != "" && NameStart(name[0]) && forall i | 0 <= i < |name| :: NameChar(name[i])
  }

  /** A reference, and nothing else. */
  ghost predicate JustReference(text: string) {
    exists name :: ValidName(name) && text == Reference(name)
  }

  ghost predicate HoldsReference(text: string) {
    exists i: nat :: i <= |text| && RefAt(text, i).Some?
  }

  lemma {:induction false} FirstRefFinds(s: string, i: nat)
    requires i <= |s|
    ensures FirstRef(s, i).None? <==> forall j: nat | i <= j <= |s| :: RefAt(s, j).None?
    decreases |s| - i
  {
    if RefAt(s, i).None? && i < |s| {
      FirstRefFinds(s, i + 1);
    }
  }

  lemma ReferenceIsRead(name: string)
    requires ValidName(name)
    ensures FirstRef(Reference(name)) == Some(name)
  {
    var r, n := Reference(name), |name| + 2;
    assert forall k | 2 <= k < n :: r[k] == name[k - 2];
    assert r[n] == '}';
    assert NameEnd(r, 2) == n;
    assert RefAt(r, 0) == Some(name) by {
      assert r[0..2] == "${" && r[2..n] == name;
    }
  }

  /** Whatever was typed, the config gets a text whose first reference is the
      recorded name; what is kept as the literal is the whole input. */
  lemma KeyRefersToItsName(p: Provider, raw: string)
    requires ValidName(p.keyEnv)
    ensures var k := NormalizeKeyInput(p, raw);
            if TrimSpace(raw) == "" then k == KeySpec("", "", "")
            else FirstRef(k.ref) == Some(k.envName)
    ensures var k := NormalizeKeyInput(p, raw);
            k.literal != "" ==> k.literal == TrimSpace(raw) && k.ref == Reference(p.keyEnv)
  {
    ReferenceIsRead(p.keyEnv);
  }

  /** The config gets a reference and nothing else if and only if the input holds
      no reference, or is just one. */
  lemma KeyIsAReferenceIff(p: Provider, raw: string)
    requires ValidName(p.keyEnv) && TrimSpace(raw) != ""
    ensures var k, text := NormalizeKeyInput(p, raw), TrimSpace(raw);
            && (JustReference(k.ref) <==> !HoldsReference(text) || JustReference(text))
            && (HoldsReference(text) ==> k.ref == text && k.literal == "")
  {
    FirstRefFinds(TrimSpace(raw), 0);
    assert JustReference(Reference(p.keyEnv));
  }

  /** A secret typed in front of a reference goes into the config as it is. */
  lemma MixedKeyGoesIntoConfig(p: Provider)
    ensures NormalizeKeyInput(p, "sk-live-1${X}") == KeySpec("sk-live-1${X}", "X", "")
    ensures !JustReference("sk-live-1${X}")
  {
    var text := "sk-live-1${X}";
    assert text[0] == 's' && text[9] == '$' && text[10] == '{' && text[11] == 'X' && text[12] == '}';
    NoBlanksAround(text);
    assert text[9..11] == "${" && NameEnd(text, 11) == 12 && text[11..12] == "X";
    assert RefAt(text, 9) == Some("X");
    FirstRefAt(text, 9);
    forall name ensures Reference(name)[0] == '$' {
    }
  }

  lemma FirstRefAt(s: string, k: nat)
    requires k < |s| && RefAt(s, k).Some? && forall j | 0 <= j < k :: s[j] != '$'
    ensures FirstRef(s) == RefAt(s, k)
  {
    FirstRefFrom(s, 0, k);
  }

  lemma {:induction false} FirstRefFrom(s: string, i: nat, k: nat)
    requires i <= k < |s| && RefAt(s, k).Some? && forall j | 0 <= j < k :: s[j] != '$'
    ensures FirstRef(s, i) == RefAt(s, k)
    decreases k - i
  {
    if i < k {
      assert At(s, "${", i) ==> s[i..i + 2][0] == s[i];
      FirstRefFrom(s, i + 1, k);
    }
  }

  // ---------------------------------------------------------------- the layout field

  predicate LayoutSep(c: char) { c == 'x' || c == 'X' || c == ' ' || c == ',' || c == '*' }

  /** strings.FieldsFunc: the non-empty runs between separators. */
  function Fields(s: string): seq<string> {
    if s == "" then []
    else if LayoutSep(s[0]) then Fields(s[1..])
    else
      var n := FieldLength(s);
      [s[..n]] + Fields(s[n..])
  }

  function FieldLength(s: string): (n: nat)
    ensures n <= |s| && (forall i | 0 <= i < n :: !LayoutSep(s[i]))
    ensures n < |s| ==> LayoutSep(s[n])
    ensures s != "" && !LayoutSep(s[0]) ==> n > 0
  {
    if s == "" || LayoutSep(s[0]) then 0 else 1 + FieldLength(s[1..])
  }

  function PositiveOr(field: string, current: int): int {
    match ParseInt64(TrimSpace(field))
    case Some(v) => if v > 0 then v else current
    case None => current
  }

  method ParseLayoutSpec(text: string, curTabs: int, curPanes: int) returns (tabs: int, panes: int)
    ensures (tabs, panes) == Layout(text, curTabs, curPanes)
  {
    tabs, panes := curTabs, curPanes;
    var fields := Fields(TrimSpace(text));
    if |fields| > 0 {
      var v := ParseInt64(TrimSpace(fields[0]));
      if v.Some? && v.value > 0 {
        tabs := v.value;
      }
    }
    if |fields| > 1 {
      var v := ParseInt64(TrimSpace(fields[1]));
      if v.Some? && v.value > 0 {
        panes := v.value;
      }
    }
  }

  function Layout(text: string, curTabs: int, curPanes: int): (int, int) {
    var fields := Fields(TrimSpace(text));
    (if |fields| > 0 then PositiveOr(fields[0], curTabs) else curTabs,
     if |fields| > 1 then PositiveOr(fields[1], curPanes) else curPanes)
  }

  function LayoutText(tabs: int, panes: int): string {
    Decimal(tabs) + "x" + Decimal(panes)
  }

  lemma DigitsParse(n: nat)
    requires 0 < n < TWO63
    ensures forall cur :: PositiveOr(Digits(n), cur) == n
  {
    var d := Digits(n);
    assert IsDigit(d[0]) && IsDigit(d[|d| - 1]);
    assert TrimSpace(d) == d;
    ValueOfDigits(n);
    assert ParseInt64(d) == Some(n);
  }

  lemma FieldThen(d: string, rest: string)
    requires d != "" && AllDigits(d) && (rest == "" || LayoutSep(rest[0]))
    ensures Fields(d + rest) == [d] + Fields(rest)
  {
    var s := d + rest;
    assert forall i | 0 <= i < |d| :: s[i] == d[i] && IsDigit(d[i]);
    var n := FieldLength(s);
    if rest != "" {
      assert LayoutSep(s[|d|]);
    }
    assert n == |d| && s[..n] == d && s[n..] == rest;
    assert !LayoutSep(s[0]);
  }

  lemma NoBlanksAround(s: string)
    requires s != "" && !IsSpace(s[0]) && !IsSpace(s[|s| - 1])
    ensures TrimSpace(s) == s
  {}

  lemma TwoFields(a: string, sep: char, b: string)
    requires a != "" && b != "" && AllDigits(a) && AllDigits(b) && LayoutSep(sep)
    ensures Fields(a + ([sep] + b)) == [a, b]
  {
    FieldThen(a, [sep] + b);
    FieldThen(b, "");
    assert ([sep] + b)[1..] == b && b == b + "";
    assert Fields([sep] + b) == Fields(b);
    assert Fields("") == [];
  }

  /** Two counts are read with any of the separators between them, one count alone
      is that of the tabs, and no text makes a count that is not positive. */
  lemma LayoutReads(tabs: int, panes: int, sep: char, text: string, curTabs: int, curPanes: int)
    requires 0 < tabs < TWO63 && 0 < panes < TWO63
    requires sep == 'x' || sep == 'X' || sep == ' ' || sep == ',' || sep == '*'
    ensures Layout(Decimal(tabs) + [sep] + Decimal(panes), curTabs, curPanes) == (tabs, panes)
    ensures Layout(Decimal(tabs), curTabs, curPanes) == (tabs, curPanes)
    ensures var (t, p) := Layout(text, curTabs, curPanes); (t == curTabs || t > 0) && (p == curPanes || p > 0)
  {
    var a, b := Digits(tabs), Digits(panes);
    var s := a + ([sep] + b);
    assert s == Decimal(tabs) + [sep] + Decimal(panes) && s[0] == a[0] && s[|s| - 1] == b[|b| - 1];
    NoBlanksAround(s);
    NoBlanksAround(a);
    TwoFields(a, sep, b);
    FieldThen(a, "");
    assert a + "" == a && Fields("") == [];
    DigitsParse(tabs);
    DigitsParse(panes);
  }

  /** Accepting the prefilled "TABSxPANES" keeps the layout, whatever it is. */
  lemma LayoutPrefillRoundTrip(tabs: int, panes: int, curTabs: int, curPanes: int)
    requires 0 < tabs < TWO63 && 0 < panes < TWO63
    ensures Layout(LayoutText(tabs, panes), curTabs, curPanes) == (tabs, panes)
  {
    assert LayoutText(tabs, panes) == Decimal(tabs) + ['x'] + Decimal(panes);
    LayoutReads(tabs, panes, 'x', "", curTabs, curPanes);
  }

  // ---------------------------------------------------------------- one update

  /** What a key press needs from outside: the text the input field holds after
      the key, and how the two config writes end. */
  datatype Outside = Outside(typed: string, providerPath: Option<string>, prefsWritten: bool)

  datatype Cmd = NoCmd | Validate(ping: Ping) | Quit

  datatype Effect = NoWrite | WroteProvider(block: Ping) | WrotePrefs(prefs: Prefs)

  datatype Turn = Turn(m: Model, cmd: Cmd, effect: Effect)

  function Stay(m: Model): Turn { Turn(m, NoCmd, NoWrite) }

  function Fail(m: Model): Turn { Turn(m.(failed := true, step := Done), Quit, NoWrite) }

  function TextStep(m: Model, step: Step, prefill: string): Model {
    m.(step := step, input := prefill)
  }

  function FinishProviderStep(cfg: Config, m: Model, o: Outside): Turn {
    match o.providerPath
    case None => Fail(m)
    case Some(path) =>
      var shell := if m.prefs.shell == "" then cfg.fallbackShell else m.prefs.shell;
      Turn(TextStep(m.(configPath := path), EnterShell, shell), NoCmd, WroteProvider(m.Current()))
  }

  function ModelPrefill(cfg: Config, p: Provider): string {
    if cfg.model == "" || !EqualFold(cfg.providerName, p.name) then p.defaultModel else cfg.model
  }

  /** strings.EqualFold over ASCII, which is what provider names are. */
  predicate EqualFold(a: string, b: string) {
    |a| == |b| && forall i | 0 <= i < |a| :: FoldChar(a[i]) == FoldChar(b[i])
  }

  function FoldChar(c: char): char {
    if 'A' <= c <= 'Z' then (c as int + 32) as char else c
  }

  predicate Cancels(key: string) { key == "ctrl+c" || key == "esc" }

  predicate Up(key: string) { key == "up" || key == "k" }

  predicate Down(key: string) { key == "down" || key == "j" }

  function Press(cfg: Config, m: Model, key: string, o: Outside): Turn
    requires m.step.PickProvider? ==> 0 <= m.cursor < |PROVIDERS|
  {
    if Cancels(key) then
      Turn(m.(configPath := "", launchNow := false, failed := true, step := Done), Quit, NoWrite)
    else match m.step
      case PickProvider =>
        if Up(key) then Stay(m.(cursor := MoveCursor(m.cursor, -1, |PROVIDERS|)))
        else if Down(key) then Stay(m.(cursor := MoveCursor(m.cursor, 1, |PROVIDERS|)))
        else if key == "enter" then
          var p := PROVIDERS[m.cursor];
          Stay(TextStep(m.(provider := p), EnterModel, ModelPrefill(cfg, p)))
        else Stay(m)
      case EnterModel =>
        if key == "enter" then
          var typed := TrimSpace(m.input);
          var model := if typed == "" then m.provider.defaultModel else typed;
          Stay(TextStep(m.(model := model), EnterKey, Reference(m.provider.keyEnv)))
        else Stay(m.(input := o.typed))
      case EnterKey =>
        if key == "enter" then
          var next := m.(key := NormalizeKeyInput(m.provider, m.input),
                         step := Validating, valErr := "", valDetail := "");
          Turn(next, Validate(next.Current()), NoWrite)
        else Stay(m.(input := o.typed))
      case Validating =>
        if key == "s" then FinishProviderStep(cfg, m.(skippedCheck := true), o) else Stay(m)
      case ValidateResult =>
        if key == "enter" then
          if m.valErr == "" then FinishProviderStep(cfg, m, o) else Stay(TextStep(m, EnterKey, ""))
        else if key == "s" then FinishProviderStep(cfg, m.(skippedCheck := true), o)
        else if key == "r" then Turn(m.(step := Validating), Validate(m.Current()), NoWrite)
        else if key == "b" then Stay(m.(step := PickProvider))
        else Stay(m)
      case EnterShell =>
        if key == "enter" then
          var typed := TrimSpace(m.input);
          var prefs := if typed == "" then m.prefs else m.prefs.(shell := typed);
          Stay(TextStep(m.(prefs := prefs), EnterLayout, LayoutText(prefs.tabs, prefs.panes)))
        else Stay(m.(input := o.typed))
      case EnterLayout =>
        if key == "enter" then
          var (tabs, panes) := Layout(m.input, m.prefs.tabs, m.prefs.panes);
          var next := m.(prefs := m.prefs.(tabs := tabs, panes := panes));
          if o.prefsWritten then Turn(next.(step := Launch, cursor := 0), NoCmd, WrotePrefs(next.prefs)) else Fail(next)
        else Stay(m.(input := o.typed))
      case Launch =>
        if Up(key) then Stay(m.(cursor := MoveCursor(m.cursor, -1, 2)))
        else if Down(key) then Stay(m.(cursor := MoveCursor(m.cursor, 1, 2)))
        else if key == "enter" then Turn(m.(launchNow := m.cursor == 0, step := Done), Quit, NoWrite)
        else Stay(m)
      case Done => Stay(m.(input := o.typed))
  }

  function Result(m: Model, a: Answer): Model {
    if !m.step.Validating? then m
    else match a
      case Failed(text) => m.(valErr := text, valDetail := "", step := ValidateResult)
      case Reachable(detail) => m.(valDetail := detail, valErr := "", step := ValidateResult)
  }

  // ---------------------------------------------------------------- the program around it

  /** The model, the pings in flight, and the history that matters: the blocks
      written and the last ping answer that was taken in. */
  datatype System = System(m: Model, inflight: seq<Ping>, block: Option<Ping>, prefs: Option<Prefs>,
                           taken: Option<(Ping, Answer)>)

  datatype Event =
    | Key(key: string, outside: Outside)
    | Pong(which: nat, answer: Answer)     // some ping in flight answers
    | Tick(typed: string)                  // a message for the input field

  predicate Possible(s: System, e: Event) {
    match e
    case Pong(which, answer) => which < |s.inflight| && (answer.Failed? ==> answer.text != "")
    case _ => true
  }

  function Next(cfg: Config, s: System, e: Event): System
    requires Possible(s, e) && (s.m.step.PickProvider? ==> 0 <= s.m.cursor < |PROVIDERS|)
  {
    match e
    case Key(key, o) =>
      var t := Press(cfg, s.m, key, o);
      System(t.m,
             if t.cmd.Validate? then s.inflight + [t.cmd.ping] else s.inflight,
             if t.effect.WroteProvider? then Some(t.effect.block) else s.block,
             if t.effect.WrotePrefs? then Some(t.effect.prefs) else s.prefs,
             s.taken)
    case Pong(which, answer) =>
      s.(m := Result(s.m, answer), inflight := s.inflight[..which] + s.inflight[which + 1..],
         taken := if s.m.step.Validating? then Some((s.inflight[which], answer)) else s.taken)
    case Tick(typed) => s.(m := s.m.(input := typed))
  }

  /** A wizard as newOnboardModel starts it. */
  predicate Initial(s: System) {
    && s.m.step == PickProvider && 0 <= s.m.cursor < |PROVIDERS| && !s.m.launchNow && !s.m.skippedCheck
    && s.inflight == [] && s.block.None? && s.prefs.None? && s.taken.None?
  }

  predicate BeforeWrite(step: Step) {
    step in {PickProvider, EnterModel, EnterKey, Validating, ValidateResult}
  }

  /** What every reachable state keeps. */
  predicate Inv(s: System) {
    var m := s.m;
    && |s.inflight| <= 1
    && (BeforeWrite(m.step) && !m.step.Validating? ==> s.inflight == [])
    && (m.step.Validating? ==> s.inflight == [m.Current()])
    && (BeforeWrite(m.step) ==> 0 <= m.cursor < |PROVIDERS| && s.block.None? && s.prefs.None?)
    && (m.step.Launch? ==> 0 <= m.cursor < 2 && s.prefs == Some(m.prefs))
    && (m.step in {EnterShell, EnterLayout} ==> s.prefs.None?)
    && (m.step in {EnterShell, EnterLayout, Launch} ==> s.block.Some?)
    && (m.step.ValidateResult? ==> s.taken.Some? && s.taken.value.0 == m.Current()
                                   && (m.valErr == "" <==> s.taken.value.1.Reachable?))
    && (s.block.Some? ==> s.block == Some(m.Current())
                          && (m.skippedCheck
                              || (s.taken.Some? && s.taken.value.0 == m.Current() && s.taken.value.1.Reachable?)))
    && (s.prefs.Some? ==> s.block.Some?)
    && (m.launchNow ==> m.step.Done? && s.block.Some? && s.prefs == Some(m.prefs))
  }

  lemma PickingKeepsInv(cfg: Config, s: System, key: string, o: Outside)
    requires Inv(s) && s.m.step in {PickProvider, EnterModel, EnterKey}
    ensures Inv(Next(cfg, s, Key(key, o)))
  {}

  lemma CheckingKeepsInv(cfg: Config, s: System, key: string, o: Outside)
    requires Inv(s) && s.m.step in {Validating, ValidateResult}
    ensures Inv(Next(cfg, s, Key(key, o)))
  {}

  lemma LayoutKeepsInv(cfg: Config, s: System, key: string, o: Outside)
    requires Inv(s) && s.m.step == EnterLayout
    ensures Inv(Next(cfg, s, Key(key, o)))
  {}

  lemma LateKeepsInv(cfg: Config, s: System, key: string, o: Outside)
    requires Inv(s) && s.m.step in {EnterShell, Launch, Done}
    ensures Inv(Next(cfg, s, Key(key, o)))
  {}

  lemma NextKeepsInv(cfg: Config, s: System, e: Event)
    requires Inv(s) && Possible(s, e)
    ensures Inv(Next(cfg, s, e))
  {
    if e.Key? {
      if s.m.step in {PickProvider, EnterModel, EnterKey} {
        PickingKeepsInv(cfg, s, e.key, e.outside);
      } else if BeforeWrite(s.m.step) {
        CheckingKeepsInv(cfg, s, e.key, e.outside);
      } else if s.m.step == EnterLayout {
        LayoutKeepsInv(cfg, s, e.key, e.outside);
      } else {
        LateKeepsInv(cfg, s, e.key, e.outside);
      }
    }
  }

  /** The states of a session: each from the one before by some event. */
  ghost predicate IsSession(cfg: Config, h: seq<System>) {
    && h != [] && Initial(h[0])
    && forall i | 0 <= i < |h| - 1 :: exists e ::
         && Possible(h[i], e) && (h[i].m.step.PickProvider? ==> 0 <= h[i].m.cursor < |PROVIDERS|)
         && h[i + 1] == Next(cfg, h[i], e)
  }

  /** In every reachable state: at most one ping is in flight, exactly one while
      validating, issued for the current provider, model and key; a shown answer
      belongs to them; the provider block is the one that answered, or the check
      was skipped; cursors are in range; and a launch was only ever chosen after
      both blocks were written. */
  lemma {:induction false} EveryReachableState(cfg: Config, h: seq<System>, i: nat)
    requires IsSession(cfg, h) && i < |h|
    ensures Inv(h[i])
  {
    if i > 0 {
      EveryReachableState(cfg, h, i - 1);
      var e :| Possible(h[i - 1], e) && h[i] == Next(cfg, h[i - 1], e);
      NextKeepsInv(cfg, h[i - 1], e);
    }
  }

  /** So an answer that is taken in never belongs to an earlier key. */
  lemma TakenAnswerIsCurrent(cfg: Config, h: seq<System>, i: nat, which: nat, answer: Answer)
    requires IsSession(cfg, h) && i < |h| && Possible(h[i], Pong(which, answer)) && h[i].m.step.Validating?
    ensures var t := Next(cfg, h[i], Pong(which, answer));
            && t.taken == Some((t.m.Current(), answer)) && t.m.Current() == h[i].m.Current() && t.inflight == []
            && t.m.step == ValidateResult
            && t.m.valErr == (if answer.Failed? then answer.text else "")
            && t.m.valDetail == (if answer.Failed? then "" else answer.detail)
  {
    EveryReachableState(cfg, h, i);
  }

  // ---------------------------------------------------------------- what the keys do

  /** From every step a cancel key ends the wizard as failed: nothing is launched or
      reported as configured, and nothing more is written. */
  lemma CancelEnds(cfg: Config, s: System, key: string, o: Outside)
    requires Inv(s) && (key == "ctrl+c" || key == "esc")
    ensures var t := Next(cfg, s, Key(key, o));
            && t == s.(m := t.m) && t.m.step == Done && t.m.failed && !t.m.launchNow && t.m.configPath == ""
            && t.m.Current() == s.m.Current() && t.m.prefs == s.m.prefs
    ensures Press(cfg, s.m, key, o).cmd == Quit
  {}

  /** The lists move by one and stop at their ends; what launches is the first line. */
  lemma ListKeys(cfg: Config, s: System, key: string, o: Outside)
    requires Inv(s) && (s.m.step == PickProvider || s.m.step == Launch)
    ensures var t, last := Next(cfg, s, Key(key, o)), if s.m.step == Launch then 1 else 2;
            && (key == "up" || key == "k" ==>
                  t == s.(m := s.m.(cursor := if s.m.cursor == 0 then 0 else s.m.cursor - 1)))
            && (key == "down" || key == "j" ==>
                  t == s.(m := s.m.(cursor := if s.m.cursor == last then last else s.m.cursor + 1)))
    ensures s.m.step == Launch && key == "enter" ==>
              && Next(cfg, s, Key(key, o)) == s.(m := s.m.(launchNow := s.m.cursor == 0, step := Done))
              && Press(cfg, s.m, key, o).cmd == Quit
  {}

  /** The model offered is the configured one when the configured provider is the
      one picked, else the provider's own. */
  lemma PickedProvider(cfg: Config, s: System, o: Outside)
    requires Inv(s) && s.m.step == PickProvider
    ensures var t, p := Next(cfg, s, Key("enter", o)), PROVIDERS[s.m.cursor];
            && t == s.(m := s.m.(provider := p, step := EnterModel, input := t.m.input))
            && (if cfg.model != "" && EqualFold(cfg.providerName, p.name) then t.m.input == cfg.model
                else t.m.input == p.defaultModel)
            && p == (if s.m.cursor == 0 then Provider("anthropic", "claude-sonnet-5", "ANTHROPIC_API_KEY", false)
                     else if s.m.cursor == 1 then Provider("openai", "gpt-4o", "OPENAI_API_KEY", false)
                     else Provider("ollama", "llama3.1", "OLLAMA_API_KEY", true))
  {}

  /** What a line typed at each text step comes to. */
  lemma TypedLine(cfg: Config, s: System, text: string, o: Outside)
    requires Inv(s) && s.m.step in {EnterModel, EnterKey, EnterShell}
    ensures var t, line := Next(cfg, Next(cfg, s, Tick(text)), Key("enter", o)), TrimSpace(text);
            match s.m.step
            case EnterModel =>
              t == s.(m := s.m.(model := if line == "" then s.m.provider.defaultModel else line,
                                step := EnterKey, input := "${" + s.m.provider.keyEnv + "}"))
            case EnterKey =>
              && t.m == s.m.(key := NormalizeKeyInput(s.m.provider, text), step := Validating, input := text,
                             valErr := "", valDetail := "")
              && t == s.(m := t.m, inflight := [Ping(s.m.provider, s.m.model, t.m.key)])
            case _ =>
              && t == s.(m := t.m) && t.m.step == EnterLayout
              && t.m.prefs == s.m.prefs.(shell := if line == "" then s.m.prefs.shell else line)
              && t.m == s.m.(prefs := t.m.prefs, step := EnterLayout,
                             input := Decimal(s.m.prefs.tabs) + "x" + Decimal(s.m.prefs.panes))
  {}

  /** And a layout: it is written, or the wizard ends as failed. */
  lemma TypedLayout(cfg: Config, s: System, text: string, o: Outside)
    requires Inv(s) && s.m.step == EnterLayout
    ensures var t := Next(cfg, Next(cfg, s, Tick(text)), Key("enter", o));
            var prefs := Prefs(s.m.prefs.shell, Layout(text, s.m.prefs.tabs, s.m.prefs.panes).0,
                               Layout(text, s.m.prefs.tabs, s.m.prefs.panes).1);
            if o.prefsWritten
            then t == s.(m := s.m.(prefs := prefs, step := Launch, cursor := 0, input := text), prefs := Some(prefs))
            else t == s.(m := s.m.(prefs := prefs, step := Done, failed := true, input := text))
  {}

  /** At the answer: what is written is what was asked about; a refused key is typed
      again, from an empty line; "r" asks once more and "b" goes back; and a check
      that was skipped is remembered. */
  lemma AtTheAnswer(cfg: Config, s: System, key: string, o: Outside)
    requires Inv(s) && s.m.step in {Validating, ValidateResult} && key in ["enter", "s", "r", "b"]
    ensures var t := Next(cfg, s, Key(key, o));
            var writes := key == "s" || (key == "enter" && s.m.step == ValidateResult && s.m.valErr == "");
            var skipped := s.m.skippedCheck || key == "s";
            if writes && o.providerPath.Some? then
              t == s.(m := s.m.(skippedCheck := skipped, configPath := o.providerPath.value, step := EnterShell,
                                input := if s.m.prefs.shell != "" then s.m.prefs.shell else cfg.fallbackShell),
                      block := Some(Ping(s.m.provider, s.m.model, s.m.key)))
            else if writes then
              t == s.(m := s.m.(skippedCheck := skipped, failed := true, step := Done))
            else if s.m.step == Validating then t == s
            else if key == "enter" then t == s.(m := s.m.(step := EnterKey, input := ""))
            else if key == "r" then
              t == s.(m := s.m.(step := Validating), inflight := [Ping(s.m.provider, s.m.model, s.m.key)])
            else t == s.(m := s.m.(step := PickProvider))
  {}

  /** Any other key at most edits the line. */
  lemma OtherKeysEdit(cfg: Config, s: System, key: string, o: Outside)
    requires Inv(s)
    requires key !in ["ctrl+c", "esc", "enter", "up", "k", "down", "j", "s", "r", "b"]
    ensures Next(cfg, s, Key(key, o)) ==
              if s.m.step in {EnterModel, EnterKey, EnterShell, EnterLayout, Done}
              then s.(m := s.m.(input := o.typed)) else s
  {}

  /** What somebody answers on the way through. */
  datatype Inputs = Inputs(model: string, key: string, detail: string, path: string, shell: string, layout: string)

  function Good(i: Inputs): Outside { Outside("", Some(i.path), true) }

  /** Line after line, each typed and entered. */
  function Entered(i: Inputs): seq<Event> {
    var enter := Key("enter", Good(i));
    [enter] + [Tick(i.model)] + [enter] + [Tick(i.key)] + [enter] + [Pong(0, Reachable(i.detail))] + [enter]
    + [Tick(i.shell)] + [enter] + [Tick(i.layout)] + [enter] + [enter]
  }

  /** The event can happen in s, and leads to t. */
  predicate Leads(cfg: Config, s: System, e: Event, t: System) {
    && Possible(s, e) && (s.m.step.PickProvider? ==> 0 <= s.m.cursor < |PROVIDERS|)
    && t == Next(cfg, s, e)
  }

  /** h is the way taken by these events. */
  predicate Way(cfg: Config, h: seq<System>, events: seq<Event>) {
    |h| == |events| + 1 && forall j: nat | j < |events| :: Leads(cfg, h[j], events[j], h[j + 1])
  }

  lemma Enter(cfg: Config, h: seq<System>, events: seq<Event>, e: Event) returns (t: System)
    requires Way(cfg, h, events) && Inv(h[|events|]) && Possible(h[|events|], e)
    ensures t == Next(cfg, h[|events|], e) && Inv(t) && Way(cfg, h + [t], events + [e])
  {
    t := Next(cfg, h[|events|], e);
    NextKeepsInv(cfg, h[|events|], e);
  }

  lemma TypeAndEnter(cfg: Config, h: seq<System>, events: seq<Event>, text: string, o: Outside)
    returns (mid: System, t: System)
    requires Way(cfg, h, events) && Inv(h[|events|])
    ensures mid == Next(cfg, h[|events|], Tick(text)) && Inv(mid) && t == Next(cfg, mid, Key("enter", o)) && Inv(t)
    ensures Way(cfg, h + [mid] + [t], events + [Tick(text)] + [Key("enter", o)])
  {
    mid := Enter(cfg, h, events, Tick(text));
    t := Enter(cfg, h + [mid], events + [Tick(text)], Key("enter", o));
  }

  lemma WayToKey(cfg: Config, s: System, i: Inputs) returns (h: seq<System>)
    requires Initial(s) && Inv(s)
    ensures Way(cfg, h, [Key("enter", Good(i))] + [Tick(i.model)] + [Key("enter", Good(i))]) && h[0] == s
    ensures var t, p := h[3], PROVIDERS[s.m.cursor];
            && Inv(t) && t == s.(m := t.m) && t.m.step == EnterKey && t.m.provider == p
            && t.m.model == (if TrimSpace(i.model) == "" then p.defaultModel else TrimSpace(i.model))
            && t.m.prefs == s.m.prefs && t.m.failed == s.m.failed && !t.m.skippedCheck
  {
    var enter := Key("enter", Good(i));
    h := [s];
    var s1 := Enter(cfg, h, [], enter);
    assert [] + [enter] == [enter];
    PickedProvider(cfg, s, Good(i));
    var s2, s3 := TypeAndEnter(cfg, h + [s1], [enter], i.model, Good(i));
    TypedLine(cfg, s1, i.model, Good(i));
    h := h + [s1] + [s2] + [s3];
  }

  lemma WayToAnswer(cfg: Config, h: seq<System>, events: seq<Event>, i: Inputs)
    returns (s1: System, s2: System, t: System)
    requires Way(cfg, h, events) && Inv(h[|events|]) && h[|events|].m.step == EnterKey
    ensures Way(cfg, h + [s1] + [s2] + [t],
                events + [Tick(i.key)] + [Key("enter", Good(i))] + [Pong(0, Reachable(i.detail))])
    ensures var m := h[|events|].m;
            var asked := Ping(m.provider, m.model, NormalizeKeyInput(m.provider, i.key));
            && Inv(t) && t == h[|events|].(m := t.m, taken := Some((asked, Reachable(i.detail))))
            && t.m.step == ValidateResult && t.m.valErr == "" && t.m.Current() == asked
            && t.m.prefs == m.prefs && t.m.failed == m.failed && t.m.skippedCheck == m.skippedCheck
  {
    s1, s2 := TypeAndEnter(cfg, h, events, i.key, Good(i));
    TypedLine(cfg, h[|events|], i.key, Good(i));
    t := Enter(cfg, h + [s1] + [s2], events + [Tick(i.key)] + [Key("enter", Good(i))], Pong(0, Reachable(i.detail)));
  }

  lemma WayToLayout(cfg: Config, h: seq<System>, events: seq<Event>, i: Inputs)
    returns (s1: System, s2: System, t: System)
    requires Way(cfg, h, events) && Inv(h[|events|])
    requires h[|events|].m.step == ValidateResult && h[|events|].m.valErr == ""
    ensures Way(cfg, h + [s1] + [s2] + [t],
                events + [Key("enter", Good(i))] + [Tick(i.shell)] + [Key("enter", Good(i))])
    ensures var s := h[|events|];
            && Inv(t) && t == s.(m := t.m, block := Some(s.m.Current())) && t.m.step == EnterLayout
            && t.m.prefs
                 == s.m.prefs.(shell := if TrimSpace(i.shell) == "" then s.m.prefs.shell else TrimSpace(i.shell))
            && t.m.configPath == i.path && t.m.failed == s.m.failed && t.m.skippedCheck == s.m.skippedCheck
  {
    s1 := Enter(cfg, h, events, Key("enter", Good(i)));
    AtTheAnswer(cfg, h[|events|], "enter", Good(i));
    s2, t := TypeAndEnter(cfg, h + [s1], events + [Key("enter", Good(i))], i.shell, Good(i));
    TypedLine(cfg, s1, i.shell, Good(i));
  }

  lemma WayToLaunch(cfg: Config, h: seq<System>, events: seq<Event>, i: Inputs)
    returns (s1: System, s2: System, t: System)
    requires Way(cfg, h, events) && Inv(h[|events|]) && h[|events|].m.step == EnterLayout
    ensures Way(cfg, h + [s1] + [s2] + [t],
                events + [Tick(i.layout)] + [Key("enter", Good(i))] + [Key("enter", Good(i))])
    ensures var s := h[|events|];
            var (tabs, panes) := Layout(i.layout, s.m.prefs.tabs, s.m.prefs.panes);
            && t == s.(m := t.m, prefs := Some(Prefs(s.m.prefs.shell, tabs, panes)))
            && t.m.step == Done && t.m.launchNow && t.m.configPath == s.m.configPath
            && t.m.failed == s.m.failed && t.m.skippedCheck == s.m.skippedCheck
  {
    s1, s2 := TypeAndEnter(cfg, h, events, i.layout, Good(i));
    TypedLayout(cfg, h[|events|], i.layout, Good(i));
    t := Enter(cfg, h + [s1] + [s2], events + [Tick(i.layout)] + [Key("enter", Good(i))], Key("enter", Good(i)));
    ListKeys(cfg, s2, "enter", Good(i));
  }

  /** All the way through: the provider picked, the model, key, shell and layout
      typed are what is checked, what is written, and what is launched. */
  lemma AllTheWay(cfg: Config, s: System, i: Inputs) returns (h: seq<System>)
    requires Initial(s)
    ensures Way(cfg, h, Entered(i)) && h[0] == s
    ensures var p := PROVIDERS[s.m.cursor];
            var model := if TrimSpace(i.model) == "" then p.defaultModel else TrimSpace(i.model);
            var asked := Ping(p, model, NormalizeKeyInput(p, i.key));
            h[12].taken == Some((asked, Reachable(i.detail))) && h[12].block == Some(asked) && h[12].inflight == []
    ensures var shell := if TrimSpace(i.shell) == "" then s.m.prefs.shell else TrimSpace(i.shell);
            var (tabs, panes) := Layout(i.layout, s.m.prefs.tabs, s.m.prefs.panes);
            h[12].prefs == Some(Prefs(shell, tabs, panes))
    ensures var m := h[12].m;
            m.step == Done && m.launchNow && m.configPath == i.path && m.failed == s.m.failed && !m.skippedCheck
  {
    var enter := Key("enter", Good(i));
    h := WayToKey(cfg, s, i);
    var e := [enter] + [Tick(i.model)] + [enter];
    var a1, a2, a3 := WayToAnswer(cfg, h, e, i);
    h, e := h + [a1] + [a2] + [a3], e + [Tick(i.key)] + [enter] + [Pong(0, Reachable(i.detail))];
    var b1, b2, b3 := WayToLayout(cfg, h, e, i);
    h, e := h + [b1] + [b2] + [b3], e + [enter] + [Tick(i.shell)] + [enter];
    var c1, c2, c3 := WayToLaunch(cfg, h, e, i);
    h := h + [c1] + [c2] + [c3];
    assert e + [Tick(i.layout)] + [enter] + [enter] == Entered(i);
  }

  // ---------------------------------------------------------------- the same, field by field

  function AtLeastOne(n: int): int { if n <= 0 then 1 else n }

  class Onboard {
    const cfg: Config
    var m: Model
    var inflight: seq<Ping>
    ghost var block: Option<Ping>
    ghost var prefs: Option<Prefs>
    ghost var taken: Option<(Ping, Answer)>

    ghost function Now(): System
      reads this
    {
      System(m, inflight, block, prefs, taken)
    }

    constructor (cfg: Config, prefs: Prefs, cursor: int)
      requires 0 <= cursor < |PROVIDERS|
      ensures Initial(Now()) && this.cfg == cfg && Inv(Now())
      ensures m.prefs.shell == prefs.shell && m.prefs.tabs == (if prefs.tabs > 0 then prefs.tabs else 1)
      ensures m.prefs.panes == (if prefs.panes > 0 then prefs.panes else 1)
    {
      this.cfg := cfg;
      m := Model(PickProvider, cursor, PROVIDERS[0], "", KeySpec("", "", ""), "", "", "", false,
                 Prefs(prefs.shell, AtLeastOne(prefs.tabs), AtLeastOne(prefs.panes)),
                 "", false, false);
      inflight, block, taken := [], None, None;
      this.prefs := None;
    }

    /** Update on a ping answer. */
    method OnPong(which: nat, answer: Answer)
      requires Possible(Now(), Pong(which, answer)) && Inv(Now())
      modifies this
      ensures Now() == Next(cfg, old(Now()), Pong(which, answer)) && Inv(Now())
    {
      NextKeepsInv(cfg, Now(), Pong(which, answer));
      var ping := inflight[which];
      inflight := inflight[..which] + inflight[which + 1..];
      if !m.step.Validating? {
        return;
      }
      taken := Some((ping, answer));
      match answer {
        case Failed(text) => m := m.(valErr := text, valDetail := "");
        case Reachable(detail) => m := m.(valDetail := detail, valErr := "");
      }
      m := m.(step := ValidateResult);
    }

    /** Update on a key: the cancel keys, else updateKey. */
    method OnKey(key: string, o: Outside) returns (quit: bool)
      requires Inv(Now())
      modifies this
      ensures Now() == Next(cfg, old(Now()), Key(key, o)) && Inv(Now())
      ensures quit <==> Press(cfg, old(m), key, o).cmd.Quit?
      ensures quit ==> m.step == Done
    {
      NextKeepsInv(cfg, Now(), Key(key, o));
      if Cancels(key) {
        m := m.(configPath := "", launchNow := false);
        m := m.(failed := true);
        m := m.(step := Done);
        return true;
      }
      if m.step in {PickProvider, EnterModel, EnterKey} {
        OnPickingKey(key, o);
        return false;
      } else if BeforeWrite(m.step) {
        quit := OnCheckingKey(key, o);
      } else {
        quit := OnLateKey(key, o);
      }
    }

    method OnPickingKey(key: string, o: Outside)
      requires Inv(Now()) && m.step in {PickProvider, EnterModel, EnterKey} && !Cancels(key)
      modifies this
      ensures Now() == Next(cfg, old(Now()), Key(key, o)) && !Press(cfg, old(m), key, o).cmd.Quit?
    {
      match m.step {
        case PickProvider =>
          if Up(key) {
            m := m.(cursor := MoveCursor(m.cursor, -1, |PROVIDERS|));
          } else if Down(key) {
            m := m.(cursor := MoveCursor(m.cursor, 1, |PROVIDERS|));
          } else if key == "enter" {
            m := m.(provider := PROVIDERS[m.cursor]);
            StartTextStep(EnterModel, ModelPrefill(cfg, m.provider));
          }
        case EnterModel =>
          if key == "enter" {
            m := m.(model := TrimSpace(m.input));
            if m.model == "" {
              m := m.(model := m.provider.defaultModel);
            }
            StartTextStep(EnterKey, Reference(m.provider.keyEnv));
          } else {
            m := m.(input := o.typed);
          }
        case EnterKey =>
          if key == "enter" {
            m := m.(key := NormalizeKeyInput(m.provider, m.input));
            m := m.(step := Validating);
            m := m.(valErr := "", valDetail := "");
            inflight := inflight + [m.Current()];
          } else {
            m := m.(input := o.typed);
          }
      }
    }

    method OnCheckingKey(key: string, o: Outside) returns (quit: bool)
      requires Inv(Now()) && m.step in {Validating, ValidateResult} && !Cancels(key)
      modifies this
      ensures Now() == Next(cfg, old(Now()), Key(key, o))
      ensures quit <==> Press(cfg, old(m), key, o).cmd.Quit?
    {
      quit := false;
      match m.step {
        case Validating =>
          if key == "s" {
            m := m.(skippedCheck := true);
            quit := FinishProvider(o);
          }
        case ValidateResult =>
          if key == "enter" {
            if m.valErr == "" {
              quit := FinishProvider(o);
            } else {
              StartTextStep(EnterKey, "");
            }
          } else if key == "s" {
            m := m.(skippedCheck := true);
            quit := FinishProvider(o);
          } else if key == "r" {
            m := m.(step := Validating);
            inflight := inflight + [m.Current()];
          } else if key == "b" {
            m := m.(step := PickProvider);
          }
      }
    }

    /** The steps after the provider block. */
    method OnLateKey(key: string, o: Outside) returns (quit: bool)
      requires Inv(Now()) && !BeforeWrite(m.step) && !Cancels(key)
      modifies this
      ensures Now() == Next(cfg, old(Now()), Key(key, o))
      ensures quit <==> Press(cfg, old(m), key, o).cmd.Quit?
    {
      quit := false;
      match m.step {
        case EnterShell =>
          if key == "enter" {
            var v := TrimSpace(m.input);
            if v != "" {
              m := m.(prefs := m.prefs.(shell := v));
            }
            StartTextStep(EnterLayout, LayoutText(m.prefs.tabs, m.prefs.panes));
          } else {
            m := m.(input := o.typed);
          }
        case EnterLayout =>
          if key == "enter" {
            var tabs, panes := ParseLayoutSpec(m.input, m.prefs.tabs, m.prefs.panes);
            m := m.(prefs := m.prefs.(tabs := tabs, panes := panes));
            if !o.prefsWritten {
              m := m.(failed := true);
              m := m.(step := Done);
              return true;
            }
            prefs := Some(m.prefs);
            m := m.(step := Launch);
            m := m.(cursor := 0);
          } else {
            m := m.(input := o.typed);
          }
        case Launch =>
          if Up(key) {
            m := m.(cursor := MoveCursor(m.cursor, -1, 2));
          } else if Down(key) {
            m := m.(cursor := MoveCursor(m.cursor, 1, 2));
          } else if key == "enter" {
            m := m.(launchNow := m.cursor == 0);
            m := m.(step := Done);
            return true;
          }
        case Done => m := m.(input := o.typed);
      }
    }

    method StartTextStep(step: Step, prefill: string)
      modifies this`m
      ensures m == TextStep(old(m), step, prefill)
    {
      m := m.(step := step);
      m := m.(input := prefill);
    }

    method FinishProvider(o: Outside) returns (quit: bool)
      modifies this`m, this`block
      ensures var t := FinishProviderStep(cfg, old(m), o);
              && m == t.m && (quit <==> t.cmd.Quit?)
              && block == if t.effect.WroteProvider? then Some(t.effect.block) else old(block)
    {
      if o.providerPath.None? {
        m := m.(failed := true);
        m := m.(step := Done);
        return true;
      }
      block := Some(m.Current());
      m := m.(configPath := o.providerPath.value);
      var shell := m.prefs.shell;
      if shell == "" {
        shell := cfg.fallbackShell;
      }
      StartTextStep(EnterShell, shell);
      return false;
    }
  }
}
