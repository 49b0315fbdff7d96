/** From bus callbacks to one exit code (cmd/rysh/run_cmd.go): callbacks push
    into a bounded queue that drops when full, one consumer decides. */
module RunEvents {
  import opened Text

  datatype Event = Phase(phase: string, detail: string) | Approval(detail: string) | BudgetHit(detail: string)

  datatype Outcome = Outcome(status: string, exitCode: int, detail: string)

  const EXIT_DONE := 0
  const EXIT_ERROR := 1
  const EXIT_PARTIAL := 2
  const EXIT_GATE_BLOCKED := 3
  const EXIT_BUDGET := 4
  const EXIT_TIMEOUT := 5

  const PAUSED_DETAIL := "run paused with a resumable partial and no interactive operator to resume it"
  const CANCELLED_DETAIL := "run cancelled with no interactive operator to resume it"
  const CLOSED_DETAIL := "event stream closed before a terminal phase (daemon or NATS connection lost)"

  /** The outcome an event decides, if it decides. */
  function Verdict(ev: Event): Option<Outcome> {
    match ev
    case Approval(d) => Some(Outcome("gate_blocked", EXIT_GATE_BLOCKED, d))
    case BudgetHit(d) => Some(Outcome("budget_exhausted", EXIT_BUDGET, d))
    case Phase(p, d) =>
      if p == "done" then Some(Outcome("done", EXIT_DONE, ""))
      else if p == "error" then Some(Outcome("error", EXIT_ERROR, d))
      else if p == "paused" then Some(Outcome("paused", EXIT_PARTIAL, PAUSED_DETAIL))
      else if p == "cancelled" then Some(Outcome("cancelled", EXIT_ERROR, CANCELLED_DETAIL))
      else None
  }

  predicate Deciding(ev: Event) { Verdict(ev).Some? }

  // ---------------------------------------------------------------- the consumer

  /** What the consumer's select delivers. */
  datatype Signal = Received(ev: Event) | StreamClosed | TimerFired

  function SignalVerdict(sig: Signal): Option<Outcome> {
    match sig
    case Received(ev) => Verdict(ev)
    case StreamClosed => Some(Outcome("disconnected", EXIT_ERROR, CLOSED_DETAIL))
    case TimerFired => Some(Outcome("timeout", EXIT_TIMEOUT, ""))
  }

  /** Reads signals until one decides; None while the loop is still waiting. */
  method DecideRunOutcome(signals: seq<Signal>) returns (o: Option<Outcome>, read: nat)
    ensures read <= |signals|
    ensures o.None? ==> read == |signals| && forall i | 0 <= i < |signals| :: SignalVerdict(signals[i]).None?
    ensures o.Some? ==> read > 0 && o == SignalVerdict(signals[read - 1])
    ensures o.Some? ==> forall i | 0 <= i < read - 1 :: SignalVerdict(signals[i]).None?
    ensures o.Some? ==> var sig := signals[read - 1];
              && (o.value.exitCode == 0 <==> sig.Received? && sig.ev.Phase? && sig.ev.phase == "done")
              && (o.value.exitCode == 1 <==>
                    sig.StreamClosed?
                    || (sig.Received? && sig.ev.Phase? && (sig.ev.phase == "error" || sig.ev.phase == "cancelled")))
              && (o.value.exitCode == 2 <==> sig.Received? && sig.ev.Phase? && sig.ev.phase == "paused")
              && (o.value.exitCode == 3 <==> sig.Received? && sig.ev.Approval?)
              && (o.value.exitCode == 4 <==> sig.Received? && sig.ev.BudgetHit?)
              && (o.value.exitCode == 5 <==> sig.TimerFired?)
    ensures o.Some? ==> var sig := signals[read - 1];
              match sig
              case StreamClosed => o.value.status == "disconnected" && o.value.detail == CLOSED_DETAIL
              case TimerFired => o.value.status == "timeout" && o.value.detail == ""
              case Received(Approval(d)) => o.value.status == "gate_blocked" && o.value.detail == d
              case Received(BudgetHit(d)) => o.value.status == "budget_exhausted" && o.value.detail == d
              case Received(Phase(p, d)) =>
                && o.value.status == p
                && (p == "done" ==> o.value.detail == "") && (p == "error" ==> o.value.detail == d)
                && (p == "paused" ==> o.value.detail == PAUSED_DETAIL)
                && (p == "cancelled" ==> o.value.detail == CANCELLED_DETAIL)
    ensures forall i | 0 <= i < (if o.Some? then read - 1 else read) ::
              && signals[i].Received? && signals[i].ev.Phase?
              && signals[i].ev.phase !in ["done", "error", "paused", "cancelled"]
  {
    read := 0;
    while read < |signals|
      invariant read <= |signals|
      invariant forall i | 0 <= i < read :: SignalVerdict(signals[i]).None?
    {
      var sig := signals[read];
      read := read + 1;
      match sig {
        case StreamClosed => return Some(Outcome("disconnected", EXIT_ERROR, CLOSED_DETAIL)), read;
        case TimerFired => return Some(Outcome("timeout", EXIT_TIMEOUT, "")), read;
        case Received(ev) =>
          match ev {
            case Approval(d) => return Some(Outcome("gate_blocked", EXIT_GATE_BLOCKED, d)), read;
            case BudgetHit(d) => return Some(Outcome("budget_exhausted", EXIT_BUDGET, d)), read;
            case Phase(p, d) =>
              if p == "done" {
                return Some(Outcome("done", EXIT_DONE, "")), read;
              } else if p == "error" {
                return Some(Outcome("error", EXIT_ERROR, d)), read;
              } else if p == "paused" {
                return Some(Outcome("paused", EXIT_PARTIAL, PAUSED_DETAIL)), read;
              } else if p == "cancelled" {
                return Some(Outcome("cancelled", EXIT_ERROR, CANCELLED_DETAIL)), read;
              }
          }
      }
    }
    return None, read;
  }

  // ---------------------------------------------------------------- producers, queue and consumer together

  const CAPACITY: nat := 256

  /** An event and its number among all events pushed. */
  datatype Item = Item(ev: Event, number: nat)

  datatype Decision = Undecided | ByEvent(item: Item) | ByTimeout

  datatype State = State(queue: seq<Item>, pushed: nat, decision: Decision)

  const INITIAL := State([], 0, Undecided)

  datatype Action = Push(ev: Event) | Receive | Fire

  predicate Room(queue: seq<Item>, cap: Option<nat>) {
    cap.None? || |queue| < cap.value
  }

  /** One step of the schedule; cap None is a queue that never fills. */
  function Step(cap: Option<nat>, s: State, a: Action): State {
    match a
    case Push(ev) =>
      s.(queue := if Room(s.queue, cap) then s.queue + [Item(ev, s.pushed)] else s.queue, pushed := s.pushed + 1)
    case Receive =>
      if !s.decision.Undecided? || s.queue == [] then s
      else s.(queue := s.queue[1..], decision := if Deciding(s.queue[0].ev) then ByEvent(s.queue[0]) else Undecided)
    case Fire => if s.decision.Undecided? then s.(decision := ByTimeout) else s
  }

  function Run(cap: Option<nat>, s: State, schedule: seq<Action>): State
    decreases |schedule|
  {
    if schedule == [] then s else Run(cap, Step(cap, s, schedule[0]), schedule[1..])
  }

  lemma {:induction false} RunConcat(cap: Option<nat>, s: State, a: seq<Action>, b: seq<Action>)
    ensures Run(cap, s, a + b) == Run(cap, Run(cap, s, a), b)
    decreases |a|
  {
    if a == [] {
      assert a + b == b;
    } else {
      RunConcat(cap, Step(cap, s, a[0]), a[1..], b);
      assert (a + b)[1..] == a[1..] + b;
    }
  }

  predicate Quiet(schedule: seq<Action>) {
    forall i | 0 <= i < |schedule| :: schedule[i].Push? ==> !Deciding(schedule[i].ev)
  }

  ghost predicate NothingDecides(s: State) {
    !s.decision.ByEvent? && forall i | 0 <= i < |s.queue| :: !Deciding(s.queue[i].ev)
  }

  lemma {:induction false} QuietRun(cap: Option<nat>, s: State, schedule: seq<Action>)
    requires NothingDecides(s) && Quiet(schedule)
    ensures NothingDecides(Run(cap, s, schedule))
    decreases |schedule|
  {
    if schedule != [] {
      QuietRun(cap, Step(cap, s, schedule[0]), schedule[1..]);
    }
  }

  /** item waits in the queue with nothing that decides ahead of it, or has decided. */
  ghost predicate Leads(s: State, item: Item) {
    || s.decision in {ByEvent(item), ByTimeout}
    || (s.decision.Undecided? && exists k | 0 <= k < |s.queue| :: s.queue[k] == item && QuietAhead(s.queue, k))
  }

  predicate QuietAhead(queue: seq<Item>, k: nat)
    requires k <= |queue|
  {
    forall j | 0 <= j < k :: !Deciding(queue[j].ev)
  }

  lemma {:induction false} LeaderDecides(cap: Option<nat>, s: State, item: Item, rest: seq<Action>)
    requires Leads(s, item) && Deciding(item.ev)
    ensures Leads(Run(cap, s, rest), item)
    decreases |rest|
  {
    if rest != [] {
      var t := Step(cap, s, rest[0]);
      if s.decision.Undecided? {
        var k :| 0 <= k < |s.queue| && s.queue[k] == item && QuietAhead(s.queue, k);
        if rest[0].Receive? && k > 0 {
          assert t.queue[k - 1] == item && QuietAhead(t.queue, k - 1);
        } else if rest[0].Push? {
          assert t.queue[k] == item && QuietAhead(t.queue, k);
        }
      }
      LeaderDecides(cap, t, item, rest[1..]);
    }
  }

  ghost predicate Lost(s: State, number: nat) {
    && s.pushed > number
    && (forall i | 0 <= i < |s.queue| :: s.queue[i].number != number)
    && (s.decision.ByEvent? ==> s.decision.item.number != number)
  }

  lemma {:induction false} LostStaysLost(cap: Option<nat>, s: State, number: nat, rest: seq<Action>)
    requires Lost(s, number)
    ensures Lost(Run(cap, s, rest), number)
    decreases |rest|
  {
    if rest != [] {
      LostStaysLost(cap, Step(cap, s, rest[0]), number, rest[1..]);
    }
  }

  predicate Numbered(s: State) {
    forall i | 0 <= i < |s.queue| :: s.queue[i].number < s.pushed
  }

  lemma {:induction false} RunNumbered(cap: Option<nat>, s: State, schedule: seq<Action>)
    requires Numbered(s)
    ensures Numbered(Run(cap, s, schedule))
    decreases |schedule|
  {
    if schedule != [] {
      RunNumbered(cap, Step(cap, s, schedule[0]), schedule[1..]);
    }
  }

  /** The state just before the first deciding push, and that push's item. */
  function Before(cap: Option<nat>, quiet: seq<Action>): State {
    Run(cap, INITIAL, quiet)
  }

  function First(cap: Option<nat>, quiet: seq<Action>, ev: Event): Item {
    Item(ev, Before(cap, quiet).pushed)
  }

  /** Whatever is dropped later, and in every interleaving: if the first deciding
      event was accepted, only it or the timer can decide the run; if it was
      dropped, it never does. */
  lemma FirstAcceptedDecides(cap: Option<nat>, quiet: seq<Action>, ev: Event, rest: seq<Action>)
    requires Quiet(quiet) && Deciding(ev)
    ensures var s := Run(cap, INITIAL, quiet + [Push(ev)] + rest);
            if Room(Before(cap, quiet).queue, cap)
            then s.decision in {Undecided, ByTimeout, ByEvent(First(cap, quiet, ev))}
            else s.decision != ByEvent(First(cap, quiet, ev))
  {
    var s0, item := Before(cap, quiet), First(cap, quiet, ev);
    var s1 := Step(cap, s0, Push(ev));
    RunConcat(cap, INITIAL, quiet + [Push(ev)], rest);
    RunConcat(cap, INITIAL, quiet, [Push(ev)]);
    assert Run(cap, s0, [Push(ev)]) == s1;
    QuietRun(cap, INITIAL, quiet);
    RunNumbered(cap, INITIAL, quiet);
    if Room(s0.queue, cap) {
      assert s1.queue[|s0.queue|] == item && QuietAhead(s1.queue, |s0.queue|);
      LeaderDecides(cap, s1, item, rest);
    } else {
      LostStaysLost(cap, s1, item.number, rest);
    }
  }

  /** A decision is final, the timer takes it when nothing did before, and only the
      timer times out. */
  lemma {:induction false} DecisionIsFinal(cap: Option<nat>, s: State, schedule: seq<Action>)
    ensures var t := Run(cap, s, schedule);
            if !s.decision.Undecided? then t.decision == s.decision
            else (Fire in schedule ==> !t.decision.Undecided?) && (Fire !in schedule ==> t.decision != ByTimeout)
    decreases |schedule|
  {
    if schedule != [] {
      DecisionIsFinal(cap, Step(cap, s, schedule[0]), schedule[1..]);
      assert Fire in schedule <==> schedule[0] == Fire || Fire in schedule[1..];
    }
  }

  function Receives(schedule: seq<Action>): nat {
    if schedule == [] then 0 else (if schedule[0].Receive? then 1 else 0) + Receives(schedule[1..])
  }

  predicate NoFire(schedule: seq<Action>) {
    forall i | 0 <= i < |schedule| :: !schedule[i].Fire?
  }

  lemma {:induction false} EnoughReceives(cap: Option<nat>, s: State, item: Item, k: nat, rest: seq<Action>)
    requires Deciding(item.ev) && NoFire(rest)
    requires s.decision == ByEvent(item)
          || (s.decision.Undecided? && k < |s.queue| && s.queue[k] == item && QuietAhead(s.queue, k)
              && Receives(rest) > k)
    ensures Run(cap, s, rest).decision == ByEvent(item)
    decreases |rest|
  {
    if rest != [] {
      var t := Step(cap, s, rest[0]);
      EnoughReceives(cap, t, item, if rest[0].Receive? && k > 0 then k - 1 else k, rest[1..]);
    }
  }

  lemma {:induction false} NoFireRun(cap: Option<nat>, s: State, schedule: seq<Action>)
    requires NothingDecides(s) && s.decision.Undecided? && Quiet(schedule) && NoFire(schedule)
    ensures Run(cap, s, schedule).decision.Undecided?
    decreases |schedule|
  {
    if schedule != [] {
      NoFireRun(cap, Step(cap, s, schedule[0]), schedule[1..]);
    }
  }

  lemma AcceptedAndReceived(cap: Option<nat>, quiet: seq<Action>, ev: Event, rest: seq<Action>)
    requires Quiet(quiet) && Deciding(ev) && NoFire(quiet) && NoFire(rest)
    requires Room(Before(cap, quiet).queue, cap) && Receives(rest) > |Before(cap, quiet).queue|
    ensures Run(cap, INITIAL, quiet + [Push(ev)] + rest).decision == ByEvent(First(cap, quiet, ev))
  {
    var s0, item := Before(cap, quiet), First(cap, quiet, ev);
    RunConcat(cap, INITIAL, quiet + [Push(ev)], rest);
    RunConcat(cap, INITIAL, quiet, [Push(ev)]);
    QuietRun(cap, INITIAL, quiet);
    NoFireRun(cap, INITIAL, quiet);
    var s1 := Step(cap, s0, Push(ev));
    assert Run(cap, s0, [Push(ev)]) == s1;
    EnoughReceives(cap, s1, item, |s0.queue|, rest);
  }

  /** The exact condition: when the timer stays away and the consumer keeps
      receiving, the first deciding event decides the run if and only if fewer
      than 256 events were pending when it was pushed. */
  lemma DecidesIffRoom(quiet: seq<Action>, ev: Event, rest: seq<Action>)
    requires Quiet(quiet) && Deciding(ev) && NoFire(quiet) && NoFire(rest) && Receives(rest) >= 256
    ensures var cap := Some(CAPACITY);
            Run(cap, INITIAL, quiet + [Push(ev)] + rest).decision == ByEvent(First(cap, quiet, ev))
            <==> |Before(cap, quiet).queue| < 256
  {
    FirstAcceptedDecides(Some(CAPACITY), quiet, ev, rest);
    if |Before(Some(CAPACITY), quiet).queue| < CAPACITY {
      AcceptedAndReceived(Some(CAPACITY), quiet, ev, rest);
    }
  }

  function Pushes(schedule: seq<Action>): seq<Event> {
    if schedule == [] then []
    else (if schedule[0].Push? then [schedule[0].ev] else []) + Pushes(schedule[1..])
  }

  lemma {:induction false} PushedCounts(cap: Option<nat>, s: State, schedule: seq<Action>)
    ensures Run(cap, s, schedule).pushed == s.pushed + |Pushes(schedule)|
    decreases |schedule|
  {
    if schedule != [] {
      PushedCounts(cap, Step(cap, s, schedule[0]), schedule[1..]);
    }
  }

  /** Against a queue that never fills: for the same pushes under any two
      schedules, fewer than 256 pending at the first deciding push means that
      whenever both runs are decided by an event, it is the same event. */
  lemma SameAsUnbounded(quiet: seq<Action>, ev: Event, rest: seq<Action>, quiet2: seq<Action>, rest2: seq<Action>)
    requires Quiet(quiet) && Quiet(quiet2) && Deciding(ev) && Pushes(quiet) == Pushes(quiet2)
    requires |Before(Some(CAPACITY), quiet).queue| < CAPACITY
    ensures var a := Run(Some(CAPACITY), INITIAL, quiet + [Push(ev)] + rest).decision;
            var b := Run(None, INITIAL, quiet2 + [Push(ev)] + rest2).decision;
            a.ByEvent? && b.ByEvent? ==> a == b
  {
    FirstAcceptedDecides(Some(CAPACITY), quiet, ev, rest);
    FirstAcceptedDecides(None, quiet2, ev, rest2);
    PushedCounts(Some(CAPACITY), INITIAL, quiet);
    PushedCounts(None, INITIAL, quiet2);
  }

  function Repeat(a: Action, n: nat): seq<Action> {
    seq(n, _ => a)
  }

  lemma {:induction false} FillQueue(cap: Option<nat>, s: State, ev: Event, n: nat)
    requires cap.None? || |s.queue| + n <= cap.value
    ensures |Run(cap, s, Repeat(Push(ev), n)).queue| == |s.queue| + n
    decreases n
  {
    if n > 0 {
      assert Repeat(Push(ev), n)[1..] == Repeat(Push(ev), n - 1);
      FillQueue(cap, Step(cap, s, Push(ev)), ev, n - 1);
    }
  }

  const FLOOD := Repeat(Push(Phase("executing", "")), CAPACITY)

  /** Dropping is not always harmless: behind 256 pending "executing" phases the
      "done" of a finished run is lost, where an unbounded queue reports it. */
  lemma DoneCanBeLost(rest: seq<Action>)
    requires NoFire(rest) && Receives(rest) > CAPACITY
    ensures var done := Phase("done", "");
            && Run(Some(CAPACITY), INITIAL, FLOOD + [Push(done)] + rest).decision
               != ByEvent(First(Some(CAPACITY), FLOOD, done))
            && Run(None, INITIAL, FLOOD + [Push(done)] + rest).decision == ByEvent(First(None, FLOOD, done))
  {
    var done := Phase("done", "");
    FillQueue(Some(CAPACITY), INITIAL, Phase("executing", ""), CAPACITY);
    FillQueue(None, INITIAL, Phase("executing", ""), CAPACITY);
    DecidesIffRoom(FLOOD, done, rest);
    AcceptedAndReceived(None, FLOOD, done, rest);
  }

  // ---------------------------------------------------------------- the queue in place

  /** The channel and its two ends, as runHeadlessPrompt holds them. */
  class RunLoop {
    var queue: seq<Item>
    var pushed: nat
    var decision: Decision

    function Now(): State
      reads this
    {
      State(queue, pushed, decision)
    }

    constructor ()
      ensures Now() == INITIAL
    {
      queue, pushed, decision := [], 0, Undecided;
    }

    /** pushEvent: never blocks the callback; a full queue drops the event. */
    method PushEvent(ev: Event)
      modifies this
      ensures Now() == Step(Some(CAPACITY), old(Now()), Push(ev))
    {
      if |queue| < CAPACITY {
        queue := queue + [Item(ev, pushed)];
      }
      pushed := pushed + 1;
    }

    /** One turn of the consumer: the timer, when it is the case that fires, or
        the next event. */
    method Turn(timerReady: bool)
      modifies this
      ensures Now() == Step(Some(CAPACITY), old(Now()), if timerReady then Fire else Receive)
    {
      if !decision.Undecided? {
        return;
      }
      if timerReady {
        decision := ByTimeout;
      } else if queue != [] {
        var item := queue[0];
        queue := queue[1..];
        var o, n := DecideRunOutcome([Received(item.ev)]);
        assert [Received(item.ev)][0] == Received(item.ev);
        if o.Some? {
          decision := ByEvent(item);
        }
      }
    }
  }
}
