/** The prompt watcher's debounce loop (cmd/rysh/prompt_watcher.go). Times are in
    milliseconds, and are those at which the loop takes an input. A reset timer
    delivers no tick of its earlier setting, as since Go 1.23. */
module Debounce {
  import opened Text

  const DEBOUNCE := 250

  datatype Op = Create | Write | Remove | Rename | Chmod

  datatype Input =
    | Done | EventsClosed | ErrorsClosed
    | File(name: string, ops: set<Op>)
    | WatchError
    | Tick

  datatype Timed = Timed(now: int, what: Input)

  /** filepath.Ext: from the last dot of the last path element. */
  function Ext(name: string): string {
    ExtFrom(name, |name|)
  }

  function ExtFrom(name: string, i: nat): string
    requires i <= |name|
  {
    if i == 0 || name[i - 1] == '/' then ""
    else if name[i - 1] == '.' then name[i - 1..]
    else ExtFrom(name, i - 1)
  }

  /** The filter takes just the names that end in ".md". */
  lemma PromptFilesOnly(name: string)
    ensures Ext(name) == ".md" <==> HasSuffix(name, ".md")
  {
    var n := |name|;
    if HasSuffix(name, ".md") {
      assert name[n - 3..][0] == '.' && name[n - 3..][1] == 'm' && name[n - 3..][2] == 'd';
      assert ExtFrom(name, n) == ExtFrom(name, n - 1) == ExtFrom(name, n - 2) == name[n - 3..];
    }
    ExtIsSuffix(name, n);
  }

  lemma {:induction false} ExtIsSuffix(name: string, i: nat)
    requires i <= |name|
    ensures HasSuffix(name, ExtFrom(name, i))
  {
    if i > 0 && name[i - 1] != '/' && name[i - 1] != '.' {
      ExtIsSuffix(name, i - 1);
    }
  }

  predicate Relevant(x: Input) {
    x.File? && Ext(x.name) == ".md" && x.ops * {Write, Create, Remove, Rename} != {}
  }

  /** Relevant are writes, creations, removals and renames of those, whatever else
      an event reports with them; a change of permissions alone is not. */
  lemma RelevantIff(x: Input)
    ensures Relevant(x) <==>
              && x.File? && HasSuffix(x.name, ".md")
              && (Write in x.ops || Create in x.ops || Remove in x.ops || Rename in x.ops)
  {
    if x.File? {
      PromptFilesOnly(x.name);
      var some := x.ops * {Write, Create, Remove, Rename};
      assert forall op <- some :: op == Write || op == Create || op == Remove || op == Rename;
      assert forall op <- {Write, Create, Remove, Rename} :: op in x.ops ==> op in some;
    }
  }

  predicate Ends(x: Input) { x.Done? || x.EventsClosed? || x.ErrorsClosed? }

  // ---------------------------------------------------------------- the loop

  /** `timer` is the deadline of a timer once there is one; `armed` says whether
      the loop listens to it. */
  datatype Loop = Looping(timer: Option<int>, armed: bool, over: bool, reloads: seq<int>)

  const START := Looping(None, false, false, [])

  function Next(s: Loop, x: Timed): Loop {
    if Ends(x.what) then s.(over := true)
    else if x.what.Tick? then s.(armed := false, reloads := s.reloads + [x.now])
    else if Relevant(x.what) then s.(timer := Some(x.now + DEBOUNCE), armed := true)
    else s
  }

  predicate Enabled(s: Loop, x: Timed) {
    !s.over && (x.what.Tick? ==> s.armed && s.timer.Some? && x.now >= s.timer.value)
  }

  function After(run: seq<Timed>): Loop {
    if run == [] then START else Next(After(run[..|run| - 1]), run[|run| - 1])
  }

  /** A run: time does not go back, and a tick comes no sooner than it is due. */
  predicate IsRun(run: seq<Timed>) {
    run == [] ||
    (var before := run[..|run| - 1];
     IsRun(before) && Enabled(After(before), run[|run| - 1])
     && (before != [] ==> before[|before| - 1].now <= run[|run| - 1].now))
  }

  class Watcher {
    var timer: Option<int>
    var timerC: bool
    var reloads: seq<int>

    constructor ()
      ensures timer == None && !timerC && reloads == []
    {
      timer, timerC, reloads := None, false, [];
    }

    method Arm(now: int)
      modifies this
      ensures timer == Some(now + DEBOUNCE) && timerC && reloads == old(reloads)
    {
      timer := Some(now + DEBOUNCE);
      timerC := true;
    }

    /** The goroutine, for the inputs its select takes in turn. */
    method Run(inputs: seq<Timed>) returns (over: bool)
      requires timer == None && !timerC && reloads == [] && IsRun(inputs)
      modifies this
      ensures After(inputs) == Looping(timer, timerC, over, reloads)
    {
      over := false;
      var i := 0;
      assert inputs[..0] == [];
      while i < |inputs|
        invariant i <= |inputs| && After(inputs[..i]) == Looping(timer, timerC, over, reloads)
      {
        var x := inputs[i];
        assert inputs[..i + 1][..i] == inputs[..i];
        i := i + 1;
        match x.what {
          case Done | EventsClosed | ErrorsClosed =>
            over := true;
          case File(name, ops) =>
            if Ext(name) == ".md" && ops * {Write, Create, Remove, Rename} != {} {
              Arm(x.now);
            }
          case WatchError =>
          case Tick =>
            timerC := false;
            reloads := reloads + [x.now];
        }
      }
      assert inputs[..|inputs|] == inputs;
    }
  }

  // ---------------------------------------------------------------- armed, and quiet

  /** j is the last relevant event, and nothing has been reloaded since. */
  ghost predicate Waiting(run: seq<Timed>, j: nat) {
    && j < |run| && Relevant(run[j].what)
    && forall k | j < k < |run| :: !Relevant(run[k].what) && !run[k].what.Tick?
  }

  lemma WaitingGrows(run: seq<Timed>, x: Timed, j: nat)
    ensures Waiting(run + [x], j) <==>
              if j == |run| then Relevant(x.what) else !Relevant(x.what) && !x.what.Tick? && Waiting(run, j)
  {
    var all := run + [x];
    if j < |run| && Waiting(all, j) {
      assert all[|run|] == x;
      forall k | j < k < |run| ensures !Relevant(run[k].what) && !run[k].what.Tick? {
        assert all[k] == run[k];
      }
    }
  }

  ghost predicate ArmedAsEventsSay(run: seq<Timed>, armed: bool, timer: Option<int>) {
    && (armed <==> exists j: nat :: Waiting(run, j))
    && (forall j: nat | Waiting(run, j) :: timer == Some(run[j].now + DEBOUNCE))
  }

  lemma ArmedByEvent(run: seq<Timed>, x: Timed)
    requires Relevant(x.what)
    ensures ArmedAsEventsSay(run + [x], true, Some(x.now + DEBOUNCE))
  {
    forall j: nat ensures Waiting(run + [x], j) <==> j == |run| {
      WaitingGrows(run, x, j);
    }
    assert Waiting(run + [x], |run|);
  }

  lemma DisarmedByTick(run: seq<Timed>, x: Timed, timer: Option<int>)
    requires x.what.Tick?
    ensures ArmedAsEventsSay(run + [x], false, timer)
  {
    forall j: nat ensures !Waiting(run + [x], j) {
      WaitingGrows(run, x, j);
    }
  }

  lemma ArmedAsBefore(run: seq<Timed>, x: Timed, armed: bool, timer: Option<int>)
    requires !Relevant(x.what) && !x.what.Tick? && ArmedAsEventsSay(run, armed, timer)
    ensures ArmedAsEventsSay(run + [x], armed, timer)
  {
    forall j: nat ensures Waiting(run + [x], j) <==> Waiting(run, j) {
      WaitingGrows(run, x, j);
    }
    if armed {
      var j: nat :| Waiting(run, j);
      assert Waiting(run + [x], j);
    }
    forall j: nat | Waiting(run + [x], j) ensures timer == Some((run + [x])[j].now + DEBOUNCE) {
      assert Waiting(run, j);
    }
  }

  /** The timer is armed if and only if a relevant event came since the last
      reload, and it is due a quarter of a second after the last of them. */
  lemma {:induction false} ArmedIffEventSinceReload(run: seq<Timed>)
    requires IsRun(run)
    ensures After(run).armed <==> exists j: nat :: Waiting(run, j)
    ensures forall j: nat | Waiting(run, j) :: After(run).timer == Some(run[j].now + DEBOUNCE)
  {
    if run != [] {
      var before, x := run[..|run| - 1], run[|run| - 1];
      ArmedIffEventSinceReload(before);
      var s := After(before);
      assert run == before + [x];
      assert ArmedAsEventsSay(before, s.armed, s.timer);
      if Relevant(x.what) {
        ArmedByEvent(before, x);
      } else if x.what.Tick? {
        DisarmedByTick(before, x, s.timer);
      } else {
        ArmedAsBefore(before, x, s.armed, s.timer);
      }
      assert ArmedAsEventsSay(run, After(run).armed, After(run).timer);
    }
  }

  /** A prefix of a run is a run. */
  lemma {:induction false} PrefixIsRun(run: seq<Timed>, k: nat)
    requires IsRun(run) && k <= |run|
    ensures IsRun(run[..k])
    decreases |run|
  {
    if k == |run| {
      assert run[..k] == run;
    } else {
      PrefixIsRun(run[..|run| - 1], k);
      assert run[..|run| - 1][..k] == run[..k];
    }
  }

  /** Every reload follows a relevant event, the last before it, by a quarter of a
      second in which none came. */
  lemma ReloadsFollowQuiet(run: seq<Timed>, k: nat) returns (j: nat)
    requires IsRun(run) && k < |run| && run[k].what.Tick?
    ensures Waiting(run[..k], j) && run[k].now >= run[j].now + 250
  {
    PrefixIsRun(run, k + 1);
    assert run[..k + 1][..k] == run[..k];
    ArmedIffEventSinceReload(run[..k]);
    j :| Waiting(run[..k], j);
  }

  /** The loop ends with the watcher's stop or with either channel's end, and takes
      nothing after it. */
  lemma {:induction false} EndIsLast(run: seq<Timed>, k: nat)
    requires IsRun(run) && k < |run|
    ensures run[k].what.Done? || run[k].what.EventsClosed? || run[k].what.ErrorsClosed? ==> k == |run| - 1
    ensures k == |run| - 1 ==>
              (After(run).over <==> run[k].what.Done? || run[k].what.EventsClosed? || run[k].what.ErrorsClosed?)
  {
    if k < |run| - 1 {
      EndIsLast(run[..|run| - 1], k);
      EndIsLast(run[..|run| - 1], |run| - 2);
    }
  }

  // ---------------------------------------------------------------- one reload a burst

  /** The times of the relevant events. */
  function Times(run: seq<Timed>): seq<int> {
    if run == [] then []
    else Times(run[..|run| - 1]) + if Relevant(run[|run| - 1].what) then [run[|run| - 1].now] else []
  }

  /** Bursts: groups of times with less than the debounce between neighbours. */
  function Bursts(times: seq<int>): nat {
    if times == [] then 0
    else
      var n := |times| - 1;
      if n == 0 then 1 else Bursts(times[..n]) + if times[n] - times[n - 1] >= DEBOUNCE then 1 else 0
  }

  /** Due ticks are taken before anything else. */
  predicate Prompt(run: seq<Timed>) {
    run == [] ||
    (var before, x := run[..|run| - 1], run[|run| - 1];
     Prompt(before)
     && (After(before).armed && !x.what.Tick? ==> After(before).timer.Some? && x.now < After(before).timer.value))
  }

  /** What holds between the reloads and the bursts, all along. */
  lemma {:induction false} Counted(run: seq<Timed>)
    requires IsRun(run)
    ensures var s, times := After(run), Times(run);
            && |s.reloads| + (if s.armed then 1 else 0) <= Bursts(times) <= |times|
            && (s.armed ==> times != [] && s.timer == Some(times[|times| - 1] + DEBOUNCE))
            && (!s.armed && times != [] ==> run[|run| - 1].now >= times[|times| - 1] + DEBOUNCE)
            && (Prompt(run) ==> |s.reloads| + (if s.armed then 1 else 0) == Bursts(times))
  {
    if run != [] {
      var before, x := run[..|run| - 1], run[|run| - 1];
      Counted(before);
      var times := Times(before);
      if Relevant(x.what) {
        assert (times + [x.now])[..|times|] == times;
      } else {
        assert Times(run) == times;
      }
    }
  }

  /** However late ticks are taken, there are no more reloads than bursts, and no
      more bursts than relevant events. */
  lemma AtMostOneReloadABurst(run: seq<Timed>)
    requires IsRun(run)
    ensures |After(run).reloads| <= Bursts(Times(run)) <= |Times(run)|
  {
    Counted(run);
  }

  /** Taken when due, there is exactly one a burst, once the last has settled. */
  lemma OneReloadASettledBurst(run: seq<Timed>)
    requires IsRun(run) && Prompt(run)
    ensures |After(run).reloads| == Bursts(Times(run)) <==> !After(run).armed
    ensures |After(run).reloads| + 1 == Bursts(Times(run)) <==> After(run).armed
  {
    Counted(run);
  }
}
