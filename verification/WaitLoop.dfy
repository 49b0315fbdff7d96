/** `rysh wait`: what a pane is doing, and the loop that polls for it
    (cmd/rysh/wait_cmd.go). Durations are in nanoseconds. */
module WaitLoop {
  import opened Text

  datatype Activity = Unset | Working | Idle | Unknown

  datatype Obs = Obs(gone: bool, needsYou: bool, attention: string, program: string, activity: Activity)

  datatype State = Exited | NeedsYou | Doing(activity: Activity)

  datatype Until = UntilIdle | UntilNeedsYou | UntilExited | UntilAny

  datatype Status = Reached | TimedOut | Gone

  datatype Outcome = Outcome(status: Status, exitCode: int, state: State, o: Obs, waitedMs: int)

  const EXIT_DONE := 0
  const EXIT_ERROR := 1
  const EXIT_TIMEOUT := 5

  function WaitState(o: Obs, seenProgram: bool): State {
    if o.gone then Exited
    else if seenProgram && o.program == "" then Exited
    else if o.needsYou then NeedsYou
    else if o.activity == Unset then Doing(Unknown)
    else Doing(o.activity)
  }

  predicate WaitReached(until: Until, o: Obs, state: State) {
    match until
    case UntilAny => true
    case UntilNeedsYou => !o.gone && o.needsYou
    case UntilIdle => !o.gone && !o.needsYou && o.activity == Idle
    case UntilExited => state == Exited
  }

  // ---------------------------------------------------------------- one look

  datatype Record = Record(id: string, needsYou: bool, attention: string, program: string)

  const UNREADABLE := Obs(false, false, "", "", Unknown)

  /** One answer to `##pane info`: `rec` is what its output decodes to. */
  function ObsFromInfo(ok: bool, rec: Option<Record>, errText: string, activity: Option<string -> Activity>): Obs {
    if !ok then
      if Contains(errText, "pane not found") then Obs(true, false, "", "", Unset) else UNREADABLE
    else match rec
      case Some(r) =>
        if r.id == "" then UNREADABLE
        else Obs(false, r.needsYou, r.attention, r.program, if activity.Some? then activity.value(r.id) else Unknown)
      case None => UNREADABLE
  }

  /** Only the workspace's own words make a pane gone, and what cannot be read is
      never idle and never in need of anyone. */
  lemma GoneOnlyWhenSaidSo(ok: bool, rec: Option<Record>, errText: string, activity: Option<string -> Activity>)
    ensures var o := ObsFromInfo(ok, rec, errText, activity);
            && (o.gone <==> !ok && Contains(errText, "pane not found"))
            && (!ok || rec.None? || rec.value.id == "" ==>
                  !WaitReached(UntilIdle, o, WaitState(o, true)) && !WaitReached(UntilNeedsYou, o, WaitState(o, true)))
            && (WaitReached(UntilIdle, o, WaitState(o, false)) || WaitReached(UntilNeedsYou, o, WaitState(o, false)) ==>
                  ok && rec.Some? && rec.value.id != "")
            && (if ok && rec.Some? && rec.value.id != "" then
                  o == Obs(false, rec.value.needsYou, rec.value.attention, rec.value.program,
                           if activity.Some? then activity.value(rec.value.id) else Unknown)
                else !o.needsYou && o.attention == "" && o.program == "" && (o.gone || o.activity == Unknown))
  {}

  // ---------------------------------------------------------------- the loop

  /** The pane and the clock: what the k-th look sees, and how long the k-th call takes. */
  class World {
    const view: nat -> Obs
    const delay: nat -> nat
    var clock: int
    var calls: nat
    var looks: nat
    var slept: int

    constructor (view: nat -> Obs, delay: nat -> nat, clock: int)
      ensures this.view == view && this.delay == delay && this.clock == clock
      ensures calls == 0 && looks == 0 && slept == 0
    {
      this.view, this.delay, this.clock := view, delay, clock;
      calls, looks, slept := 0, 0, 0;
    }

    method Observe() returns (o: Obs)
      modifies this
      ensures o == view(old(looks)) && looks == old(looks) + 1 && clock >= old(clock) && slept == old(slept)
    {
      o := view(looks);
      looks := looks + 1;
      clock, calls := clock + delay(calls), calls + 1;
    }

    method Now() returns (t: int)
      modifies this
      ensures t == clock >= old(clock) && looks == old(looks) && slept == old(slept)
    {
      clock, calls := clock + delay(calls), calls + 1;
      t := clock;
    }

    method Sleep(d: nat)
      modifies this
      ensures clock >= old(clock) + d && slept == old(slept) + d && looks == old(looks)
    {
      clock, calls := clock + d + delay(calls), calls + 1;
      slept := slept + d;
    }
  }

  /** An observation as the outcome shows it: never without an activity while there is a pane. */
  function Reported(o: Obs): (r: Obs)
    ensures r.activity == Unset ==> r.gone
  {
    if o.activity == Unset && !o.gone then o.(activity := Unknown) else o
  }

  /** A program was seen in one of the looks before the k-th. */
  ghost predicate SeenBefore(view: nat -> Obs, k: nat) {
    exists j: nat | j < k :: view(j).program != ""
  }

  /** What the k-th look finds the pane doing. */
  ghost function StateAt(view: nat -> Obs, k: nat): State {
    WaitState(view(k), SeenBefore(view, k + 1))
  }

  ghost predicate Satisfied(until: Until, view: nat -> Obs, k: nat) {
    WaitReached(until, view(k), StateAt(view, k))
  }

  /** The wait ends with its k-th look, whatever the clock says. */
  ghost predicate Decided(until: Until, view: nat -> Obs, k: nat) {
    Satisfied(until, view, k) || view(k).gone
  }

  /** What one more look adds to the latch. */
  lemma Latch(view: nat -> Obs, k: nat)
    ensures SeenBefore(view, k + 1) <==> SeenBefore(view, k) || view(k).program != ""
  {
    if view(k).program != "" {
      assert SeenBefore(view, k + 1);
    }
    if SeenBefore(view, k) {
      var j: nat :| j < k && view(j).program != "";
      assert j < k + 1;
    }
  }

  /** Sleeps of at least `interval` each but the last, within `timeout` in all. */
  lemma RoomForSleeps(k: nat, interval: int, timeout: int)
    requires interval > 0 && timeout >= 0 && k * interval <= timeout
    ensures k <= timeout / interval
  {
    var q := timeout / interval;
    assert (q + 1) * interval == q * interval + interval > timeout;
    assert k > q ==> k * interval >= (q + 1) * interval;
  }

  method WaitLoop(until: Until, world: World, interval: int, timeout: int) returns (out: Outcome)
    requires interval > 0 && timeout >= 0
    requires world.looks == 0 && world.slept == 0
    modifies world
    ensures 1 <= world.looks <= timeout / interval + 2 && world.slept <= timeout
    ensures forall k: nat | k < world.looks - 1 :: !Decided(until, world.view, k)
    ensures var last := world.looks - 1;
            && out.o == Reported(world.view(last))
            && out.state == StateAt(world.view, last)
            && out.status == (if Satisfied(until, world.view, last) then Reached
                              else if world.view(last).gone then Gone else TimedOut)
    ensures var o, seen := world.view(world.looks - 1), exists j: nat | j < world.looks :: world.view(j).program != "";
            && (out.status == Reached <==>
                  match until
                  case UntilAny => true
                  case UntilNeedsYou => !o.gone && o.needsYou
                  case UntilIdle => !o.gone && !o.needsYou && o.activity == Idle
                  case UntilExited => o.gone || (seen && o.program == ""))
            && (out.status == Gone ==> o.gone) && (out.status == TimedOut ==> !o.gone)
    ensures var o, seen := world.view(world.looks - 1), exists j: nat | j < world.looks :: world.view(j).program != "";
            && (out.state == Exited <==> o.gone || (seen && o.program == ""))
            && (out.state != Exited ==> (out.state == NeedsYou <==> o.needsYou))
            && (out.state.Doing? ==> out.state.activity == out.o.activity != Unset)
            && out.o == o.(activity := out.o.activity) && (o.activity != Unset ==> out.o.activity == o.activity)
    ensures out.status.TimedOut? ==> world.clock - old(world.clock) >= timeout
    ensures 0 <= out.waitedMs && out.waitedMs * 1_000_000 <= world.clock - old(world.clock)
    ensures world.slept < (out.waitedMs + 1) * 1_000_000
    ensures out.exitCode == match out.status case Reached => 0 case Gone => 1 case TimedOut => 5
  {
    var start := world.Now();
    var seenProgram := false;
    ghost var full: nat := 0;
    ghost var view := world.view;
    while true
      invariant world.looks <= full + 1 && full * interval <= timeout
      invariant 0 <= world.slept <= timeout && world.slept <= world.clock - start
      invariant world.looks == full || world.clock - start >= timeout
      invariant full * interval <= world.slept
      invariant old(world.clock) <= start
      invariant seenProgram <==> SeenBefore(view, world.looks)
      invariant forall k: nat | k < world.looks :: !Decided(until, view, k)
      decreases timeout - world.slept
    {
      ghost var k := world.looks;
      var o := world.Observe();
      Latch(view, k);
      if o.program != "" {
        seenProgram := true;
      }
      var state := WaitState(o, seenProgram);
      var now := world.Now();
      RoomForSleeps(full, interval, timeout);
      var reported := if o.activity == Unset && !o.gone then Unknown else o.activity;
      out := Outcome(Reached, EXIT_DONE, state, o.(activity := reported), Millis(now - start));
      if WaitReached(until, o, state) {
        return out;
      } else if o.gone {
        out := out.(status := Gone, exitCode := EXIT_ERROR);
        return out;
      }
      now := world.Now();
      var left := timeout - (now - start);
      if left <= 0 {
        out := out.(status := TimedOut, exitCode := EXIT_TIMEOUT);
        return out;
      }
      if left < interval {
        world.Sleep(left);
      } else {
        FullSleep(full, interval);
        world.Sleep(interval);
        full := full + 1;
      }
    }
  }

  lemma FullSleep(full: nat, interval: int)
    ensures (full + 1) * interval == full * interval + interval
  {}

  /** Duration.Milliseconds, for the durations of a clock that does not go back. */
  function Millis(ns: int): int
    requires ns >= 0
  {
    ns / 1_000_000
  }

  // ---------------------------------------------------------------- what "exited" means

  /** A pane reads as exited if and only if it is gone, or a program was seen in an
      earlier look and this one shows none. */
  lemma ExitedIff(view: nat -> Obs, k: nat)
    ensures StateAt(view, k) == Exited <==> view(k).gone || (view(k).program == "" && SeenBefore(view, k))
  {
    Latch(view, k);
  }

  /** Which look ends a wait for what. */
  lemma SatisfiedIff(view: nat -> Obs, k: nat)
    ensures Satisfied(UntilAny, view, k)
    ensures Satisfied(UntilNeedsYou, view, k) <==> !view(k).gone && view(k).needsYou
    ensures Satisfied(UntilIdle, view, k) <==> !view(k).gone && !view(k).needsYou && view(k).activity == Idle
    ensures Satisfied(UntilExited, view, k) <==>
              view(k).gone || (view(k).program == "" && exists j: nat | j < k :: view(j).program != "")
  {
    ExitedIff(view, k);
  }

  /** A look that could not read the pane reads as unknown if and only if no program
      had been seen: once one was, it reads as exited, and ends a wait for that. */
  lemma UnreadableIsUnknownIffNothingSeen(view: nat -> Obs, k: nat)
    requires view(k) == UNREADABLE
    ensures StateAt(view, k) == Doing(Unknown) <==> !SeenBefore(view, k)
    ensures Satisfied(UntilExited, view, k) <==> SeenBefore(view, k)
  {
    Latch(view, k);
  }

  /** So a wait for "exited" can end while the program runs on. */
  lemma LostReadEndsTheWait(running: Obs)
    requires !running.gone && running.program != ""
    ensures var view := (k: nat) => if k == 1 then UNREADABLE else running;
            !Decided(UntilExited, view, 0) && Satisfied(UntilExited, view, 1) && !view(2).gone && view(2).program != ""
  {
    var view := (k: nat) => if k == 1 then UNREADABLE else running;
    Latch(view, 0);
    UnreadableIsUnknownIffNothingSeen(view, 1);
    assert view(0).program != "";
  }
}
