/** Pairing the step stream of a run into per-call audit entries
    (cmd/rysh/run_audit.go). */
module ToolCalls {
  import opened Text

  datatype Kind = ToolStart | ToolEnd | OtherStep

  datatype Step = Step(kind: Kind, origin: string, depth: int, title: string, timestampMs: int, iteration: int)

  datatype ToolCall = ToolCall(tool: string, inputSummary: string, startedAtMs: int, endedAtMs: int, durationMs: int,
                               resultSummary: string, iteration: int, depth: int, incomplete: bool)

  // ---------------------------------------------------------------- the pairing, without queues

  /** A call: the step that started it and the step that closed it, if any did. */
  datatype Call = Call(start: Step, end: Option<Step>)

  predicate SameLane(a: Step, b: Step) {
    a.origin == b.origin && a.depth == b.depth
  }

  predicate OpenFor(c: Call, end: Step) {
    c.end.None? && SameLane(c.start, end)
  }

  /** An end closes the earliest open call of its origin and depth, or nothing. */
  function Close(calls: seq<Call>, end: Step): (r: seq<Call>)
    ensures |r| == |calls|
  {
    if calls == [] then []
    else if OpenFor(calls[0], end) then [calls[0].(end := Some(end))] + calls[1..]
    else [calls[0]] + Close(calls[1..], end)
  }

  function Observe(calls: seq<Call>, st: Step): seq<Call> {
    match st.kind
    case ToolStart => calls + [Call(st, None)]
    case ToolEnd => Close(calls, st)
    case OtherStep => calls
  }

  function Pair(steps: seq<Step>): seq<Call> {
    if steps == [] then [] else Observe(Pair(steps[..|steps| - 1]), steps[|steps| - 1])
  }

  lemma {:induction false} CloseAt(calls: seq<Call>, end: Step, i: nat)
    requires i < |calls| && OpenFor(calls[i], end)
    requires forall j | 0 <= j < i :: !OpenFor(calls[j], end)
    ensures Close(calls, end) == calls[i := calls[i].(end := Some(end))]
  {
    if i > 0 {
      CloseAt(calls[1..], end, i - 1);
    }
  }

  lemma {:induction false} CloseNone(calls: seq<Call>, end: Step)
    requires forall j | 0 <= j < |calls| :: !OpenFor(calls[j], end)
    ensures Close(calls, end) == calls
  {
    if calls != [] {
      CloseNone(calls[1..], end);
    }
  }

  /** What Close does, whichever call it hits. */
  lemma {:induction false} CloseOne(calls: seq<Call>, end: Step) returns (i: nat)
    ensures i <= |calls|
    ensures i == |calls| ==> Close(calls, end) == calls && forall j | 0 <= j < |calls| :: !OpenFor(calls[j], end)
    ensures i < |calls| ==> OpenFor(calls[i], end) && Close(calls, end) == calls[i := calls[i].(end := Some(end))]
  {
    i := 0;
    while i < |calls| && !OpenFor(calls[i], end)
      invariant i <= |calls| && forall j | 0 <= j < i :: !OpenFor(calls[j], end)
    {
      i := i + 1;
    }
    if i < |calls| {
      CloseAt(calls, end, i);
    } else {
      CloseNone(calls, end);
    }
  }

  // ---------------------------------------------------------------- one lane at a time

  /** The lane's key in the open map. */
  function Key(origin: string, depth: int): string {
    origin + "/" + Decimal(depth)
  }

  lemma NoSlash(n: int)
    ensures '/' !in Decimal(n)
  {
    var d := Digits(if n < 0 then -n else n);
    assert AllDigits(d);
  }

  /** The key names one lane even when an origin holds slashes. */
  lemma KeyInjective(o1: string, d1: int, o2: string, d2: int)
    ensures Key(o1, d1) == Key(o2, d2) <==> o1 == o2 && d1 == d2
  {
    if Key(o1, d1) == Key(o2, d2) {
      NoSlash(d1);
      NoSlash(d2);
      LastSlashSplits(o1, Decimal(d1), o2, Decimal(d2));
      DecimalInjective(d1, d2);
    }
  }

  lemma LastSlashSplits(o1: string, t1: string, o2: string, t2: string)
    requires o1 + "/" + t1 == o2 + "/" + t2 && '/' !in t1 && '/' !in t2
    ensures o1 == o2 && t1 == t2
  {
    var k := o1 + "/" + t1;
    assert k[|o1|] == '/' && k[|o2|] == '/';
    assert forall i | |o1| < i < |k| :: k[i] == t1[i - |o1| - 1];
    assert forall i | |o2| < i < |k| :: k[i] == t2[i - |o2| - 1];
    assert o1 == k[..|o1|] && o2 == k[..|o2|] && t1 == k[|o1| + 1..] && t2 == k[|o2| + 1..];
  }

  predicate InLane(st: Step, origin: string, depth: int) {
    st.origin == origin && st.depth == depth
  }

  function LaneSteps(steps: seq<Step>, origin: string, depth: int): seq<Step> {
    if steps == [] then []
    else
      var rest := LaneSteps(steps[..|steps| - 1], origin, depth);
      var st := steps[|steps| - 1];
      if InLane(st, origin, depth) then rest + [st] else rest
  }

  function LaneCalls(calls: seq<Call>, origin: string, depth: int): seq<Call> {
    if calls == [] then []
    else
      var rest := LaneCalls(calls[1..], origin, depth);
      if InLane(calls[0].start, origin, depth) then [calls[0]] + rest else rest
  }

  lemma {:induction false} LaneCallsAppend(calls: seq<Call>, c: Call, origin: string, depth: int)
    ensures LaneCalls(calls + [c], origin, depth)
         == LaneCalls(calls, origin, depth) + (if InLane(c.start, origin, depth) then [c] else [])
  {
    if calls == [] {
      assert [c][1..] == [];
    } else {
      LaneCallsAppend(calls[1..], c, origin, depth);
      assert (calls + [c])[1..] == calls[1..] + [c];
    }
  }

  lemma {:induction false} LaneCallsClose(calls: seq<Call>, end: Step, origin: string, depth: int)
    ensures LaneCalls(Close(calls, end), origin, depth)
         == if InLane(end, origin, depth) then Close(LaneCalls(calls, origin, depth), end)
            else LaneCalls(calls, origin, depth)
  {
    if calls != [] {
      LaneCallsClose(calls[1..], end, origin, depth);
      var closed := Close(calls, end);
      if OpenFor(calls[0], end) {
        assert closed[1..] == calls[1..];
      } else {
        assert closed[1..] == Close(calls[1..], end);
      }
    }
  }

  lemma {:induction false} PairInLane(steps: seq<Step>, origin: string, depth: int)
    ensures LaneCalls(Pair(steps), origin, depth) == Pair(LaneSteps(steps, origin, depth))
  {
    if steps != [] {
      var before, st := steps[..|steps| - 1], steps[|steps| - 1];
      PairInLane(before, origin, depth);
      var lane := LaneSteps(before, origin, depth);
      assert (lane + [st])[..|lane|] == lane;
      match st.kind
      case ToolStart => LaneCallsAppend(Pair(before), Call(st, None), origin, depth);
      case ToolEnd => LaneCallsClose(Pair(before), st, origin, depth);
      case OtherStep =>
    }
  }

  // ---------------------------------------------------------------- FIFO, in closed form

  function Starts(steps: seq<Step>): seq<Step> {
    if steps == [] then []
    else
      var rest := Starts(steps[..|steps| - 1]);
      var st := steps[|steps| - 1];
      if st.kind.ToolStart? then rest + [st] else rest
  }

  function Ends(steps: seq<Step>): seq<Step> {
    if steps == [] then []
    else
      var rest := Ends(steps[..|steps| - 1]);
      var st := steps[|steps| - 1];
      if st.kind.ToolEnd? then rest + [st] else rest
  }

  /** Where the steps of one kind stand, when one step is added. */
  lemma OneMorePlace(at: seq<nat>, found: seq<Step>, steps: seq<Step>, st: Step, kind: Kind) returns (now: seq<nat>)
    requires |at| == |found| && forall j, k | 0 <= j < k < |at| :: at[j] < at[k]
    requires forall j | 0 <= j < |at| :: at[j] < |steps| && found[j] == steps[at[j]]
    requires forall n: nat | n < |steps| :: n in at <==> steps[n].kind == kind
    ensures var all, more := steps + [st], if st.kind == kind then found + [st] else found;
            && |now| == |more| && (forall j, k | 0 <= j < k < |now| :: now[j] < now[k])
            && (forall j | 0 <= j < |now| :: now[j] < |all| && more[j] == all[now[j]])
            && (forall n: nat | n < |all| :: n in now <==> all[n].kind == kind)
  {
    if st.kind == kind {
      now := at + [|steps|];
      forall n: nat | n <= |steps| ensures n in now <==> n in at || n == |steps| {
        assert now[|at|] == |steps|;
      }
    } else {
      now := at;
      assert |steps| !in at;
    }
  }

  /** The start steps are all there, in stream order. */
  lemma {:induction false} WhereStartsStand(steps: seq<Step>) returns (at: seq<nat>)
    ensures |at| == |Starts(steps)| && forall j, k | 0 <= j < k < |at| :: at[j] < at[k]
    ensures forall j | 0 <= j < |at| :: at[j] < |steps| && Starts(steps)[j] == steps[at[j]]
    ensures forall n: nat | n < |steps| :: n in at <==> steps[n].kind == ToolStart
  {
    if steps == [] {
      at := [];
    } else {
      var before := steps[..|steps| - 1];
      var places := WhereStartsStand(before);
      at := OneMorePlace(places, Starts(before), before, steps[|steps| - 1], ToolStart);
      assert before + [steps[|steps| - 1]] == steps;
    }
  }

  /** And so are the end steps. */
  lemma {:induction false} WhereEndsStand(steps: seq<Step>) returns (at: seq<nat>)
    ensures |at| == |Ends(steps)| && forall j, k | 0 <= j < k < |at| :: at[j] < at[k]
    ensures forall j | 0 <= j < |at| :: at[j] < |steps| && Ends(steps)[j] == steps[at[j]]
    ensures forall n: nat | n < |steps| :: n in at <==> steps[n].kind == ToolEnd
  {
    if steps == [] {
      at := [];
    } else {
      var before := steps[..|steps| - 1];
      var places := WhereEndsStand(before);
      at := OneMorePlace(places, Ends(before), before, steps[|steps| - 1], ToolEnd);
      assert before + [steps[|steps| - 1]] == steps;
    }
  }

  /** The ends of one lane that close something: an end counts when fewer ends
      than starts were counted before it. */
  function Accepted(steps: seq<Step>): (r: seq<Step>)
    ensures |r| <= |Starts(steps)|
  {
    if steps == [] then []
    else
      var before, st := steps[..|steps| - 1], steps[|steps| - 1];
      var rest := Accepted(before);
      if st.kind.ToolEnd? && |rest| < |Starts(before)| then rest + [st] else rest
  }

  /** The k-th start with the k-th accepted end. */
  function Zip(starts: seq<Step>, ends: seq<Step>): seq<Call>
    requires |ends| <= |starts|
  {
    seq(|starts|, i requires 0 <= i < |starts| => Call(starts[i], if i < |ends| then Some(ends[i]) else None))
  }

  predicate OneLane(steps: seq<Step>, origin: string, depth: int) {
    forall i | 0 <= i < |steps| :: InLane(steps[i], origin, depth)
  }

  lemma {:induction false} LaneStepsAreOneLane(steps: seq<Step>, origin: string, depth: int)
    ensures OneLane(LaneSteps(steps, origin, depth), origin, depth)
  {
    if steps != [] {
      LaneStepsAreOneLane(steps[..|steps| - 1], origin, depth);
    }
  }

  lemma {:induction false} StartsInLane(steps: seq<Step>, origin: string, depth: int)
    requires OneLane(steps, origin, depth)
    ensures OneLane(Starts(steps), origin, depth)
  {
    if steps != [] {
      StartsInLane(steps[..|steps| - 1], origin, depth);
    }
  }

  lemma {:induction false} OneLaneIsZip(steps: seq<Step>, origin: string, depth: int)
    requires OneLane(steps, origin, depth)
    ensures Pair(steps) == Zip(Starts(steps), Accepted(steps))
  {
    if steps != [] {
      var before, st := steps[..|steps| - 1], steps[|steps| - 1];
      OneLaneIsZip(before, origin, depth);
      StartsInLane(before, origin, depth);
      var starts, ends := Starts(before), Accepted(before);
      if st.kind.ToolEnd? {
        ZipEnd(starts, ends, st);
      } else if st.kind.ToolStart? {
        ZipStart(starts, ends, st);
      }
    }
  }

  lemma ZipStart(starts: seq<Step>, ends: seq<Step>, st: Step)
    requires |ends| <= |starts|
    ensures Zip(starts + [st], ends) == Zip(starts, ends) + [Call(st, None)]
  {}

  lemma ZipEnd(starts: seq<Step>, ends: seq<Step>, st: Step)
    requires |ends| <= |starts| && forall i | 0 <= i < |starts| :: SameLane(starts[i], st)
    ensures Close(Zip(starts, ends), st) == Zip(starts, if |ends| < |starts| then ends + [st] else ends)
  {
    if |ends| < |starts| {
      CloseAt(Zip(starts, ends), st, |ends|);
    } else {
      CloseNone(Zip(starts, ends), st);
    }
  }

  /** FIFO per origin and depth: within a lane, the k-th start is closed by the
      k-th end that found an open call; what other lanes do does not matter. */
  lemma FifoPerLane(steps: seq<Step>, origin: string, depth: int)
    ensures var lane := LaneSteps(steps, origin, depth);
            LaneCalls(Pair(steps), origin, depth) == Zip(Starts(lane), Accepted(lane))
  {
    var lane := LaneSteps(steps, origin, depth);
    PairInLane(steps, origin, depth);
    LaneStepsAreOneLane(steps, origin, depth);
    OneLaneIsZip(lane, origin, depth);
  }

  function StartsOf(calls: seq<Call>): seq<Step> {
    seq(|calls|, i requires 0 <= i < |calls| => calls[i].start)
  }

  /** Entries are the starts, all of them, in stream order. */
  lemma {:induction false} EntriesAreTheStarts(steps: seq<Step>)
    ensures StartsOf(Pair(steps)) == Starts(steps)
  {
    if steps != [] {
      EntriesAreTheStarts(steps[..|steps| - 1]);
      var calls, st := Pair(steps[..|steps| - 1]), steps[|steps| - 1];
      if st.kind.ToolEnd? {
        var _ := CloseOne(calls, st);
      }
    }
  }

  // ---------------------------------------------------------------- conservation

  function EndOf(c: Call): multiset<Step> {
    match c.end
    case Some(e) => multiset{e}
    case None => multiset{}
  }

  function ClosingEnds(calls: seq<Call>): multiset<Step> {
    if calls == [] then multiset{} else EndOf(calls[0]) + ClosingEnds(calls[1..])
  }

  function Completed(calls: seq<Call>): nat {
    if calls == [] then 0 else (if calls[0].end.Some? then 1 else 0) + Completed(calls[1..])
  }

  function Unfinished(calls: seq<Call>): nat {
    if calls == [] then 0 else (if calls[0].end.None? then 1 else 0) + Unfinished(calls[1..])
  }

  /** The ends that found their lane with no open call. */
  function Dropped(steps: seq<Step>): multiset<Step> {
    if steps == [] then multiset{}
    else
      var before, st := steps[..|steps| - 1], steps[|steps| - 1];
      var lane := LaneSteps(before, st.origin, st.depth);
      Dropped(before) + if st.kind.ToolEnd? && |Accepted(lane)| == |Starts(lane)| then multiset{st} else multiset{}
  }

  lemma {:induction false} ClosingEndsAppend(calls: seq<Call>, start: Step)
    ensures ClosingEnds(calls + [Call(start, None)]) == ClosingEnds(calls)
  {
    var longer := calls + [Call(start, None)];
    if calls == [] {
      assert longer[1..] == [];
    } else {
      ClosingEndsAppend(calls[1..], start);
      assert longer[1..] == calls[1..] + [Call(start, None)];
      assert longer[0] == calls[0];
    }
  }

  lemma {:induction false} ClosingEndsUpdate(calls: seq<Call>, i: nat, end: Step)
    requires i < |calls| && calls[i].end.None?
    ensures ClosingEnds(calls[i := calls[i].(end := Some(end))]) == ClosingEnds(calls) + multiset{end}
  {
    var closed := calls[i := calls[i].(end := Some(end))];
    if i == 0 {
      assert closed[1..] == calls[1..];
    } else {
      ClosingEndsUpdate(calls[1..], i - 1, end);
      assert closed[1..] == calls[1..][i - 1 := calls[i].(end := Some(end))];
    }
  }

  lemma {:induction false} LaneCallsHas(calls: seq<Call>, c: Call)
    ensures c in LaneCalls(calls, c.start.origin, c.start.depth) <==> c in calls
  {
    if calls != [] {
      LaneCallsHas(calls[1..], c);
    }
  }

  /** A lane has an open call exactly when it accepted fewer ends than it saw starts. */
  lemma OpenIffBehind(steps: seq<Step>, end: Step)
    ensures var lane := LaneSteps(steps, end.origin, end.depth);
            (exists i | 0 <= i < |Pair(steps)| :: OpenFor(Pair(steps)[i], end)) <==> |Accepted(lane)| < |Starts(lane)|
  {
    var lane := LaneSteps(steps, end.origin, end.depth);
    FifoPerLane(steps, end.origin, end.depth);
    var zipped := Zip(Starts(lane), Accepted(lane));
    if i :| 0 <= i < |Pair(steps)| && OpenFor(Pair(steps)[i], end) {
      LaneCallsHas(Pair(steps), Pair(steps)[i]);
      assert Pair(steps)[i] in zipped;
    }
    if |Accepted(lane)| < |Starts(lane)| {
      var c := zipped[|Accepted(lane)|];
      LaneStepsAreOneLane(steps, end.origin, end.depth);
      StartsInLane(lane, end.origin, end.depth);
      assert c in zipped;
      LaneCallsHas(Pair(steps), c);
      var j :| 0 <= j < |Pair(steps)| && Pair(steps)[j] == c;
      assert OpenFor(Pair(steps)[j], end);
    }
  }

  /** Every end either closes one call or is dropped, and none is used twice. */
  lemma {:induction false} EndsConserved(steps: seq<Step>)
    ensures multiset(Ends(steps)) == ClosingEnds(Pair(steps)) + Dropped(steps)
  {
    if steps != [] {
      var before, st := steps[..|steps| - 1], steps[|steps| - 1];
      EndsConserved(before);
      match st.kind
      case ToolStart => ClosingEndsAppend(Pair(before), st);
      case ToolEnd =>
        OpenIffBehind(before, st);
        var i := CloseOne(Pair(before), st);
        if i < |Pair(before)| {
          ClosingEndsUpdate(Pair(before), i, st);
        }
      case OtherStep =>
    }
  }

  lemma {:induction false} CompletedCounts(calls: seq<Call>)
    ensures |ClosingEnds(calls)| == Completed(calls)
    ensures Completed(calls) + Unfinished(calls) == |calls|
  {
    if calls != [] {
      CompletedCounts(calls[1..]);
    }
  }

  /** starts = completed + incomplete, and ends = completed + dropped. */
  lemma Conservation(steps: seq<Step>)
    ensures |Starts(steps)| == Completed(Pair(steps)) + Unfinished(Pair(steps))
    ensures |Ends(steps)| == Completed(Pair(steps)) + |Dropped(steps)|
  {
    EntriesAreTheStarts(steps);
    EndsConserved(steps);
    CompletedCounts(Pair(steps));
    assert |StartsOf(Pair(steps))| == |Pair(steps)|;
    assert |multiset(Ends(steps))| == |Ends(steps)|;
  }

  // ---------------------------------------------------------------- longer streams

  /** Later steps add calls and close open ones; a pairing is never undone. */
  lemma {:induction false} ExtensionKeepsPairings(steps: seq<Step>, more: seq<Step>)
    ensures var a, b := Pair(steps), Pair(steps + more);
            |a| <= |b| && forall i | 0 <= i < |a| :: a[i].start == b[i].start && (a[i].end.Some? ==> b[i] == a[i])
    decreases |more|
  {
    if more == [] {
      assert steps + more == steps;
    } else {
      var shorter, st := more[..|more| - 1], more[|more| - 1];
      ExtensionKeepsPairings(steps, shorter);
      var all := steps + more;
      assert all[..|all| - 1] == steps + shorter && all[|all| - 1] == st;
      if st.kind.ToolEnd? {
        var _ := CloseOne(Pair(steps + shorter), st);
      }
    }
  }

  // ---------------------------------------------------------------- the audit entry

  /** Drops the "<tool>: " prefix of a step title. */
  function StripTitlePrefix(title: string, origin: string): string {
    if origin == "" || title == origin then ""
    else if |title| > |origin| + 2 && title[..|origin| + 2] == origin + ": " then title[|origin| + 2..]
    else ""
  }

  lemma TitleRoundTrip(origin: string, input: string)
    requires origin != ""
    ensures StripTitlePrefix(origin + ": " + input, origin) == input
    ensures StripTitlePrefix(origin, origin) == ""
  {
    var title := origin + ": " + input;
    assert title[..|origin| + 2] == origin + ": " && title[|origin| + 2..] == input;
  }

  const SEPARATOR: string := [' ', '\U{2014}', ' ']

  function ExtractResultSummary(title: string): string {
    match LastIndex(title, SEPARATOR)
    case Some(i) => title[i + |SEPARATOR|..]
    case None => ""
  }

  /** The digest printed after the separator is read back exactly when no
      separator starts inside it, counting the blank that precedes it. */
  lemma ResultSummaryRoundTrip(step: string, digest: string)
    ensures ExtractResultSummary(step + SEPARATOR + digest) == digest <==> !Contains(" " + digest, SEPARATOR)
  {
    var title, tail := step + SEPARATOR + digest, " " + digest;
    assert title[|step| + 2..] == tail && title[|step| + 3..] == digest;
    assert title[|step|..|step| + 3] == SEPARATOR;
    assert At(title, SEPARATOR, |step|);
    assert title[|step| + 1] == '\U{2014}';
    forall i | 0 <= i <= |tail| ensures At(tail, SEPARATOR, i) <==> At(title, SEPARATOR, |step| + 2 + i) {
      if i + 3 <= |tail| {
        assert tail[i..i + 3] == title[|step| + 2 + i..|step| + 2 + i + 3];
      }
    }
    var last := LastIndex(title, SEPARATOR).value;
    assert last >= |step|;
    assert title[last] == SEPARATOR[0];
    if last >= |step| + 2 {
      assert At(tail, SEPARATOR, last - |step| - 2);
      assert |ExtractResultSummary(title)| < |digest|;
    }
  }

  /** The digest is what follows the last separator; without one there is none. */
  lemma DigestIsLast(title: string)
    ensures var digest := ExtractResultSummary(title);
            if Contains(title, " \U{2014} ")
            then HasSuffix(title, " \U{2014} " + digest) && !Contains(" " + digest, " \U{2014} ")
            else digest == ""
  {
    var last := LastIndex(title, SEPARATOR);
    if last.Some? {
      var step, digest := title[..last.value], ExtractResultSummary(title);
      assert title == step + SEPARATOR + digest;
      ResultSummaryRoundTrip(step, digest);
      assert title[last.value..] == SEPARATOR + digest;
    }
  }

  /** The entry while the stream is still being read; Incomplete is set at the end. */
  function Draft(c: Call): ToolCall {
    var s := c.start;
    var ended := if c.end.Some? then c.end.value.timestampMs else 0;
    ToolCall(
      if s.origin == "" then s.title else s.origin,
      StripTitlePrefix(s.title, s.origin),
      s.timestampMs,
      ended,
      if c.end.Some? && s.timestampMs > 0 && ended >= s.timestampMs then ended - s.timestampMs else 0,
      if c.end.Some? then ExtractResultSummary(c.end.value.title) else "",
      s.iteration, s.depth, false)
  }

  function Render(c: Call): ToolCall {
    Draft(c).(incomplete := Draft(c).endedAtMs == 0)
  }

  /** What an entry says of the two steps of its call. */
  lemma EntryOfCall(c: Call)
    ensures var e, s := Render(c), c.start;
            && e.tool == (if s.origin == "" then s.title else s.origin)
            && e.startedAtMs == s.timestampMs && e.iteration == s.iteration && e.depth == s.depth
            && (if s.origin != "" && s.origin + ": " <= s.title then s.title == s.origin + ": " + e.inputSummary
                else e.inputSummary == "")
    ensures var e := Render(c);
            match c.end
            case None => e.endedAtMs == 0 && e.durationMs == 0 && e.resultSummary == "" && e.incomplete
            case Some(end) =>
              && e.endedAtMs == end.timestampMs && (e.incomplete <==> end.timestampMs == 0)
              && (if 0 < e.startedAtMs <= e.endedAtMs then e.startedAtMs + e.durationMs == e.endedAtMs
                  else e.durationMs == 0)
              && (if Contains(end.title, " \U{2014} ")
                  then HasSuffix(end.title, " \U{2014} " + e.resultSummary)
                       && !Contains(" " + e.resultSummary, " \U{2014} ")
                  else e.resultSummary == "")
  {
    var prefix := c.start.origin + ": ";
    if c.start.origin != "" && prefix <= c.start.title {
      assert c.start.title == prefix + c.start.title[|prefix|..];
    }
    if c.end.Some? {
      DigestIsLast(c.end.value.title);
    }
  }

  /** "Incomplete" tells the calls that never ended, and is right about all of
      them exactly when no closing end carried the timestamp 0. */
  lemma {:induction false} IncompleteIffNoZeroEnd(calls: seq<Call>)
    ensures (forall c <- calls :: Render(c).incomplete <==> c.end.None?)
       <==> (forall e <- ClosingEnds(calls) :: e.timestampMs != 0)
  {
    if calls != [] {
      IncompleteIffNoZeroEnd(calls[1..]);
      var c, rest := calls[0], ClosingEnds(calls[1..]);
      assert calls == [c] + calls[1..];
      assert c.end.Some? ==> c.end.value in ClosingEnds(calls);
      assert forall e <- rest :: e in ClosingEnds(calls);
      assert forall d <- calls[1..] :: d in calls;
    }
  }

  /** A call that ended, at timestamp 0, is audited as incomplete. */
  lemma EndAtZeroLooksIncomplete(start: Step, end: Step)
    requires start.kind == ToolStart && end == start.(kind := ToolEnd, timestampMs := 0)
    ensures var calls := Pair([start, end]); calls == [Call(start, Some(end))] && Render(calls[0]).incomplete
  {
    assert [start, end][..1] == [start] && [start][..0] == [];
    assert Pair([start]) == [Call(start, None)];
  }

  // ---------------------------------------------------------------- the loop with its queues

  /** Each queue lists the open calls of one key, oldest first. */
  ghost predicate QueuesHold(open: map<string, seq<nat>>, calls: seq<Call>) {
    && (forall k <- open, a | 0 <= a < |open[k]| :: Waiting(calls, open[k][a], k))
    && (forall k <- open, a, b | 0 <= a < b < |open[k]| :: open[k][a] < open[k][b])
    && (forall i | 0 <= i < |calls| && calls[i].end.None? ::
          Queued(open, i, Key(calls[i].start.origin, calls[i].start.depth)))
  }

  ghost predicate Waiting(calls: seq<Call>, i: nat, k: string) {
    i < |calls| && calls[i].end.None? && Key(calls[i].start.origin, calls[i].start.depth) == k
  }

  ghost predicate Queued(open: map<string, seq<nat>>, i: nat, k: string) {
    k in open && i in open[k]
  }

  function Queue(open: map<string, seq<nat>>, k: string): seq<nat> {
    if k in open then open[k] else []
  }

  lemma QueueHeadIsEarliest(open: map<string, seq<nat>>, calls: seq<Call>, end: Step)
    requires QueuesHold(open, calls)
    ensures var q := Queue(open, Key(end.origin, end.depth));
            && (q == [] ==> Close(calls, end) == calls)
            && (q != [] ==>
                  && q[0] < |calls| && calls[q[0]].end.None?
                  && Close(calls, end) == calls[q[0] := calls[q[0]].(end := Some(end))])
  {
    var k := Key(end.origin, end.depth);
    var q := Queue(open, k);
    forall j | 0 <= j < |calls| && OpenFor(calls[j], end) ensures j in q {
      assert Queued(open, j, Key(calls[j].start.origin, calls[j].start.depth));
    }
    if q == [] {
      CloseNone(calls, end);
    } else {
      assert Waiting(calls, q[0], k);
      KeyInjective(calls[q[0]].start.origin, calls[q[0]].start.depth, end.origin, end.depth);
      CloseAt(calls, end, q[0]);
    }
  }

  lemma QueuesAfterStart(open: map<string, seq<nat>>, calls: seq<Call>, st: Step)
    requires QueuesHold(open, calls)
    ensures var k := Key(st.origin, st.depth);
            QueuesHold(open[k := Queue(open, k) + [|calls|]], calls + [Call(st, None)])
  {
    var k := Key(st.origin, st.depth);
    var open', calls' := open[k := Queue(open, k) + [|calls|]], calls + [Call(st, None)];
    forall k' <- open', a | 0 <= a < |open'[k']| ensures Waiting(calls', open'[k'][a], k') {
      if k' in open && a < |open[k']| {
        assert Waiting(calls, open[k'][a], k');
      }
    }
    forall k' <- open', a, b | 0 <= a < b < |open'[k']| ensures open'[k'][a] < open'[k'][b] {
      if k' in open && a < |open[k']| {
        assert Waiting(calls, open[k'][a], k');
      }
    }
    forall i | 0 <= i < |calls'| && calls'[i].end.None?
      ensures Queued(open', i, Key(calls'[i].start.origin, calls'[i].start.depth))
    {
      if i < |calls| {
        assert Queued(open, i, Key(calls[i].start.origin, calls[i].start.depth));
      } else {
        assert open'[k][|Queue(open, k)|] == i;
      }
    }
  }

  lemma QueuesAfterEnd(open: map<string, seq<nat>>, calls: seq<Call>, k: string, closed: Call)
    requires QueuesHold(open, calls) && k in open && open[k] != [] && open[k][0] < |calls|
    requires closed.start == calls[open[k][0]].start && closed.end.Some?
    ensures QueuesHold(open[k := open[k][1..]], calls[open[k][0] := closed])
  {
    var head := open[k][0];
    var open', calls' := open[k := open[k][1..]], calls[head := closed];
    assert Waiting(calls, head, k);
    forall k' <- open', a | 0 <= a < |open'[k']| ensures Waiting(calls', open'[k'][a], k') {
      var a0 := if k' == k then a + 1 else a;
      assert open'[k'][a] == open[k'][a0];
      assert Waiting(calls, open[k'][a0], k');
    }
    forall i | 0 <= i < |calls'| && calls'[i].end.None?
      ensures Queued(open', i, Key(calls'[i].start.origin, calls'[i].start.depth))
    {
      var k' := Key(calls[i].start.origin, calls[i].start.depth);
      assert Queued(open, i, k');
      var a :| 0 <= a < |open[k']| && open[k'][a] == i;
      if k' == k {
        assert open'[k'][a - 1] == i;
      }
    }
  }

  function Drafts(calls: seq<Call>): seq<ToolCall> {
    seq(|calls|, i requires 0 <= i < |calls| => Draft(calls[i]))
  }

  function Rendered(calls: seq<Call>): seq<ToolCall> {
    seq(|calls|, i requires 0 <= i < |calls| => Render(calls[i]))
  }

  /** The first loop, with one queue of call indices per key. */
  method PairSteps(steps: seq<Step>) returns (calls: seq<ToolCall>)
    ensures calls == Drafts(Pair(steps))
  {
    calls := [];
    var open: map<string, seq<nat>> := map[];
    for n := 0 to |steps|
      invariant calls == Drafts(Pair(steps[..n]))
      invariant QueuesHold(open, Pair(steps[..n]))
    {
      var st := steps[n];
      ghost var paired := Pair(steps[..n]);
      assert steps[..n + 1][..n] == steps[..n];
      var k := Key(st.origin, st.depth);
      match st.kind {
        case ToolStart =>
          var c := ToolCall(st.origin, StripTitlePrefix(st.title, st.origin), st.timestampMs, 0, 0, "",
                            st.iteration, st.depth, false);
          if c.tool == "" {
            c := c.(tool := st.title);
          }
          QueuesAfterStart(open, paired, st);
          open := open[k := Queue(open, k) + [|calls|]];
          calls := calls + [c];
        case ToolEnd =>
          var idxs := Queue(open, k);
          QueueHeadIsEarliest(open, paired, st);
          if idxs != [] {
            var i := idxs[0];
            QueuesAfterEnd(open, paired, k, paired[i].(end := Some(st)));
            open := open[k := idxs[1..]];
            calls := CloseEntry(paired, calls, i, st);
          }
        case OtherStep =>
      }
    }
    assert steps[..|steps|] == steps;
  }

  /** The audit's loops produce the entries of the queue-free pairing: one for each
      start, in order, that tells of its start and of the end that closed it. */
  method PairToolCalls(steps: seq<Step>) returns (calls: seq<ToolCall>)
    ensures calls == Rendered(Pair(steps))
    ensures |calls| == |Pair(steps)| == |Starts(steps)|
    ensures forall i | 0 <= i < |calls| ::
              var e, s := calls[i], Starts(steps)[i];
              && e.tool == (if s.origin == "" then s.title else s.origin)
              && e.startedAtMs == s.timestampMs && e.iteration == s.iteration && e.depth == s.depth
              && (if s.origin != "" && s.origin + ": " <= s.title then s.title == s.origin + ": " + e.inputSummary
                  else e.inputSummary == "")
    ensures forall i | 0 <= i < |calls| && Pair(steps)[i].end.None? ::
              var e := calls[i];
              e.endedAtMs == 0 && e.durationMs == 0 && e.resultSummary == "" && e.incomplete
    ensures forall i | 0 <= i < |calls| && Pair(steps)[i].end.Some? ::
              var e, end := calls[i], Pair(steps)[i].end.value;
              && e.endedAtMs == end.timestampMs && (e.incomplete <==> end.timestampMs == 0)
              && (if 0 < e.startedAtMs <= e.endedAtMs then e.startedAtMs + e.durationMs == e.endedAtMs
                  else e.durationMs == 0)
              && (if Contains(end.title, " \U{2014} ")
                  then HasSuffix(end.title, " \U{2014} " + e.resultSummary)
                       && !Contains(" " + e.resultSummary, " \U{2014} ")
                  else e.resultSummary == "")
  {
    calls := PairSteps(steps);
    calls := MarkIncomplete(Pair(steps), calls);
    EntriesAreTheStarts(steps);
    forall c <- Pair(steps) {
      EntryOfCall(c);
    }
  }

  /** Fills in the entry that an end closes. */
  method CloseEntry(ghost paired: seq<Call>, entries: seq<ToolCall>, i: nat, st: Step) returns (calls: seq<ToolCall>)
    requires entries == Drafts(paired) && i < |paired| && paired[i].end.None?
    ensures calls == Drafts(paired[i := paired[i].(end := Some(st))])
    ensures |calls| == |entries| && forall j | 0 <= j < |calls| && j != i :: calls[j] == entries[j]
    ensures calls[i].endedAtMs == st.timestampMs
    ensures var start := paired[i].start.timestampMs;
            if 0 < start <= st.timestampMs then start + calls[i].durationMs == st.timestampMs
            else calls[i].durationMs == 0
  {
    calls := entries[i := entries[i].(endedAtMs := st.timestampMs)];
    if calls[i].startedAtMs > 0 && st.timestampMs >= calls[i].startedAtMs {
      calls := calls[i := calls[i].(durationMs := st.timestampMs - calls[i].startedAtMs)];
    }
    calls := calls[i := calls[i].(resultSummary := ExtractResultSummary(st.title))];
  }

  method MarkIncomplete(ghost paired: seq<Call>, entries: seq<ToolCall>) returns (calls: seq<ToolCall>)
    requires entries == Drafts(paired)
    ensures calls == Rendered(paired)
  {
    calls := entries;
    for i := 0 to |calls|
      invariant |calls| == |entries|
      invariant forall j | 0 <= j < i :: calls[j] == entries[j].(incomplete := entries[j].endedAtMs == 0)
      invariant forall j | i <= j < |calls| :: calls[j] == entries[j]
    {
      calls := calls[i := calls[i].(incomplete := calls[i].endedAtMs == 0)];
    }
  }
}
