/** Refreshing a case's golden transcript (cmd/rysh/eval_cli.go): stage, move
    aside, rename in, restore — where any call may fail and the process may die
    between any two of them, or in the middle of a removal. */
module Baseline {
  import opened Text

  datatype Entry = Regular(data: string) | Subdir

  type Dir = map<string, Entry>

  /** recorded/, .baseline-prev and the run's own .baseline-stage-*. */
  datatype Disk = Disk(recorded: Option<Dir>, prev: Option<Dir>, stage: Option<Dir>)

  /** What one live run is graded by. */
  datatype Verdicts = Verdicts(exitCode: int, assertions: seq<bool>, replay: bool,
                               hasJudge: bool, judgeSeat: bool, judgeErr: bool, judgePass: bool)
  {
    predicate Pass() {
      && false !in assertions && exitCode == 0
      && (hasJudge && !replay ==> judgeSeat && !judgeErr && judgePass)
    }
  }

  /** Where the program is: the next call it makes. */
  datatype Phase =
    | Idle
    | Recording
    | Graded(verdicts: Verdicts)
    | Stat
    | ClearPrev
    | MoveAside
    | Promote(existed: bool)
    | Restore
    | DropPrev
    | DropStage

  /** golden is history: the transcript recorded/ held at the start or the last
      one renamed into it. */
  datatype State = State(disk: Disk, phase: Phase, golden: Option<Dir>)

  function Recorded(d: Dir): set<string> {
    set n | n in d && d[n].Regular? && d[n].data != "" :: n
  }

  predicate CanReplace(target: Option<Dir>) {
    target.None? || target.value == map[]
  }

  /** What an unfinished RemoveAll may leave. */
  ghost predicate Eroded(before: Option<Dir>, after: Option<Dir>) {
    || after.None?
    || (before.Some? && after.value.Keys <= before.value.Keys
        && forall n <- after.value :: after.value[n] == before.value[n])
  }

  // ---------------------------------------------------------------- the protocol

  ghost predicate Next(s: State, t: State) {
    || t == State(s.disk.(stage := None), Idle, s.golden)   // the process dies; a new run starts afresh
    || match s.phase
       case Idle => s.disk.stage.None? && t == State(s.disk.(stage := Some(map[])), Recording, s.golden)
       case Recording =>
         && t.golden == s.golden && t.disk.recorded == s.disk.recorded && t.disk.prev == s.disk.prev
         && t.disk.stage.Some?
         && (t.phase == Recording || ((t.phase.Graded? || t.phase == DropStage) && t.disk == s.disk))
       case Graded(verdicts) =>
         && t.golden == s.golden && t.disk == s.disk
         && (t.phase == DropStage
             || (t.phase == Stat && verdicts.Pass() && s.disk.stage.Some? && Recorded(s.disk.stage.value) != {}))
       case Stat =>
         && t.golden == s.golden && t.disk == s.disk
         && (t.phase == Promote(false) || (t.phase == ClearPrev && s.disk.recorded.Some?))
       case ClearPrev =>
         && t.golden == s.golden && t.phase in {ClearPrev, MoveAside}
         && Eroded(s.disk.prev, t.disk.prev) && t.disk == s.disk.(prev := t.disk.prev)
       case MoveAside =>
         || t == s.(phase := DropStage)
         || (CanReplace(s.disk.prev) && s.disk.recorded.Some?
             && t == State(s.disk.(prev := s.disk.recorded, recorded := None), Promote(true), s.golden))
       case Promote(existed) =>
         || t == s.(phase := if existed then Restore else DropStage)
         || (CanReplace(s.disk.recorded) && s.disk.stage.Some?
             && t == State(s.disk.(recorded := s.disk.stage, stage := None), DropPrev, s.disk.stage))
       case Restore =>
         || t == s.(phase := DropStage)
         || (CanReplace(s.disk.recorded) && s.disk.prev.Some?
             && t == State(s.disk.(recorded := s.disk.prev, prev := None), DropStage, s.golden))
       case DropPrev =>
         && t.golden == s.golden && t.phase in {DropPrev, DropStage}
         && Eroded(s.disk.prev, t.disk.prev) && t.disk == s.disk.(prev := t.disk.prev)
       case DropStage =>
         && t.golden == s.golden
         && ((t.phase == DropStage && Eroded(s.disk.stage, t.disk.stage) && t.disk == s.disk.(stage := t.disk.stage))
             || (t.phase == Idle && t.disk == s.disk.(stage := None)))
  }

  /** Before the first run: whatever recorded/ holds is the golden transcript;
      .baseline-prev may hold anything an earlier crash left. */
  ghost predicate Start(s: State) {
    s.phase == Idle && s.disk.stage.None? && s.golden == s.disk.recorded
  }

  /** Any number of runs, one call at a time. */
  ghost predicate IsHistory(h: seq<State>) {
    h != [] && Start(h[0]) && forall i | 0 <= i < |h| - 1 :: Next(h[i], h[i + 1])
  }

  // ---------------------------------------------------------------- safety of every history

  ghost predicate Safe(s: State) {
    && (s.phase.Idle? ==> s.disk.stage.None?)
    && (s.disk.recorded.Some? ==> s.golden == s.disk.recorded)
    && (s.disk.recorded.None? && s.golden.Some? ==> s.disk.prev == s.golden)
    && (s.phase in {ClearPrev, MoveAside, DropPrev} ==> s.disk.recorded.Some?)
    && (s.phase in {Promote(true), Restore} ==> s.disk.recorded.None? && s.golden.Some?)
    && (s.phase.Stat? || s.phase.ClearPrev? || s.phase.MoveAside? || s.phase.Promote? ==>
          s.disk.stage.Some? && Recorded(s.disk.stage.value) != {})
  }

  lemma StepKeepsSafe(s: State, t: State)
    requires Safe(s) && Next(s, t)
    ensures Safe(t)
  {}

  /** A golden transcript, once present, stays whole: in recorded/, or in
      .baseline-prev while recorded/ is absent; and recorded/ never holds
      anything else. */
  lemma {:induction false} GoldenSurvives(h: seq<State>, i: nat)
    requires IsHistory(h) && i < |h|
    ensures Safe(h[i])
    ensures h[i].disk.recorded.Some? ==> h[i].disk.recorded == h[i].golden
    ensures h[i].golden.Some? ==> h[i].golden == if h[i].disk.recorded.Some? then h[i].disk.recorded else h[i].disk.prev
    ensures h[0].golden.Some? ==> h[i].golden.Some?
  {
    if i > 0 {
      GoldenSurvives(h, i - 1);
      assert Next(h[i - 1], h[i]);
      StepKeepsSafe(h[i - 1], h[i]);
    }
  }

  predicate Promoting(s: State) {
    s.phase.Stat? || s.phase.ClearPrev? || s.phase.MoveAside? || s.phase.Promote?
  }

  /** At some earlier point the case had just passed with this very recording staged. */
  lemma {:induction false} StagedAfterPass(h: seq<State>, i: nat) returns (k: nat)
    requires IsHistory(h) && i < |h| && Promoting(h[i])
    ensures k < i && h[k].phase.Graded? && h[k].phase.verdicts.Pass()
    ensures h[i].disk.stage.Some? && h[k].disk.stage == h[i].disk.stage
  {
    GoldenSurvives(h, i);
    assert Next(h[i - 1], h[i]);
    if Promoting(h[i - 1]) {
      k := StagedAfterPass(h, i - 1);
    } else {
      k := i - 1;
    }
  }

  /** recorded/ only ever holds the initial transcript or the recording of a run
      that ended with exit code 0, met every assertion, was passed by the judge
      where one was asked for and the run was no replay, and wrote at least one
      non-empty file. */
  lemma {:induction false} GoldenProvenance(h: seq<State>, i: nat) returns (k: nat, file: string)
    requires IsHistory(h) && i < |h| && h[i].golden != h[0].golden
    ensures k < i && h[k].phase.Graded? && h[k].disk.stage == h[i].golden
    ensures var v := h[k].phase.verdicts;
            && v.exitCode == 0 && false !in v.assertions
            && (v.hasJudge && !v.replay ==> v.judgeSeat && !v.judgeErr && v.judgePass)
    ensures h[i].golden.Some? && file in h[i].golden.value
    ensures h[i].golden.value[file].Regular? && h[i].golden.value[file].data != ""
  {
    assert Next(h[i - 1], h[i]);
    if h[i].golden == h[i - 1].golden {
      k, file := GoldenProvenance(h, i - 1);
    } else {
      GoldenSurvives(h, i - 1);
      k := StagedAfterPass(h, i - 1);
      file :| file in Recorded(h[i].golden.value);
    }
  }

  // ---------------------------------------------------------------- the limit of the restore

  /** No step outside a promotion brings recorded/ back: an absent baseline
      stays absent until a new recording is promoted. */
  lemma {:induction false} AbsentUntilPromoted(h: seq<State>, i: nat, j: nat)
    requires IsHistory(h) && i <= j < |h|
    requires h[i].phase == Idle && h[i].disk.recorded.None?
    requires forall k | i <= k < j :: !(h[k].phase.Promote? && h[k + 1].phase == DropPrev)
    ensures h[j].disk.recorded.None? && h[j].phase !in {ClearPrev, MoveAside, Promote(true), Restore}
    decreases j
  {
    if j > i {
      AbsentUntilPromoted(h, i, j - 1);
      assert Next(h[j - 1], h[j]);
    }
  }

  /** The documented restore can itself fail: this run keeps the transcript, but
      only in .baseline-prev, and leaves the case without a recorded/. */
  lemma RestoreCanFail(was: Dir, newer: Dir, v: Verdicts)
    requires Recorded(newer) != {} && v.Pass()
    ensures exists h: seq<State> :: IsHistory(h) && h[0].disk.recorded == Some(was)
              && h[|h| - 1] == State(Disk(None, Some(was), None), Idle, Some(was))
  {
    var g := Some(was);
    var staged := Disk(g, None, Some(newer));
    var aside := Disk(None, g, Some(newer));
    var h := [
      State(Disk(g, None, None), Idle, g), State(Disk(g, None, Some(map[])), Recording, g),
      State(staged, Recording, g), State(staged, Graded(v), g), State(staged, Stat, g), State(staged, ClearPrev, g),
      State(staged, MoveAside, g), State(aside, Promote(true), g), State(aside, Restore, g), State(aside, DropStage, g),
      State(Disk(None, g, None), Idle, g)];
    assert IsHistory(h);
  }

  // ---------------------------------------------------------------- the judge, and replays

  /** eval's flags for the engine and the refusals among them. */
  datatype Flags = Flags(result: bool, live: bool, replay: bool, update: bool)
  {
    predicate Refused() {
      || (!result && !live && !replay) || (result && (live || replay))
      || (update && !live)
    }
  }

  /** A replay that also records is refused exactly when --live is missing too. */
  lemma ReplayRecordsIff(f: Flags)
    requires f.replay && f.update && !f.result
    ensures f.Refused() <==> !f.live
  {}

  /** Whatever passes can become the golden transcript, in one undisturbed run. */
  lemma PassingIsPromoted(newer: Dir, v: Verdicts) returns (h: seq<State>)
    requires Recorded(newer) != {} && v.Pass()
    ensures IsHistory(h) && h[0].disk.recorded.None? && h[|h| - 1].disk.recorded == Some(newer)
    ensures exists k | 0 <= k < |h| :: h[k].phase == Graded(v)
  {
    var staged := Disk(None, None, Some(newer));
    var done := Disk(Some(newer), None, None);
    h := [
      State(Disk(None, None, None), Idle, None), State(Disk(None, None, Some(map[])), Recording, None),
      State(staged, Recording, None), State(staged, Graded(v), None), State(staged, Stat, None),
      State(staged, Promote(false), None), State(done, DropPrev, Some(newer))];
    assert h[3].phase == Graded(v);
  }

  /** The judge a case asks for is passed over when a replay records: a recording
      the judge refuses becomes the golden transcript. */
  lemma ReplayPromotesUnjudged(newer: Dir) returns (h: seq<State>, v: Verdicts)
    requires Recorded(newer) != {}
    ensures v.replay && v.hasJudge && v.judgeSeat && !v.judgePass
    ensures IsHistory(h) && h[0].disk.recorded.None? && h[|h| - 1].disk.recorded == Some(newer)
    ensures exists k | 0 <= k < |h| :: h[k].phase == Graded(v)
  {
    v := Verdicts(0, [], true, true, true, false, false);
    h := PassingIsPromoted(newer, v);
  }

  // ---------------------------------------------------------------- the code, call by call

  /** What ReadDir and Info report of one staged entry. */
  datatype DirEntry = DirEntry(name: string, isDir: bool, size: Option<nat>)

  ghost predicate Lists(d: Dir, entries: seq<DirEntry>) {
    && (forall i, j | 0 <= i < j < |entries| :: entries[i].name != entries[j].name)
    && (forall i | 0 <= i < |entries| :: Reports(d, entries[i]))
    && (forall n <- d :: exists i | 0 <= i < |entries| :: entries[i].name == n)
  }

  predicate Reports(d: Dir, e: DirEntry) {
    && e.name in d
    && (d[e.name].Subdir? <==> e.isDir)
    && (d[e.name].Regular? && e.size.Some? ==> e.size.value == |d[e.name].data|)
  }

  ghost predicate Seen(entries: seq<DirEntry>, i: nat, n: string) {
    exists j | 0 <= j < i && j < |entries| :: entries[j].name == n
  }

  lemma SeenNext(d: Dir, entries: seq<DirEntry>, i: nat)
    requires Lists(d, entries) && i < |entries|
    ensures !Seen(entries, i, entries[i].name)
    ensures forall x :: Seen(entries, i + 1, x) <==> Seen(entries, i, x) || x == entries[i].name
  {
    forall x ensures Seen(entries, i + 1, x) <==> Seen(entries, i, x) || x == entries[i].name {
      if Seen(entries, i, x) {
        var j :| 0 <= j < i && entries[j].name == x;
        assert 0 <= j < i + 1;
      }
    }
  }

  /** The names of the first i entries that count. */
  ghost predicate CountedUpTo(d: Dir, entries: seq<DirEntry>, i: nat, seen: set<string>) {
    forall x :: x in seen <==> x in Recorded(d) && Seen(entries, i, x)
  }

  lemma AllCounted(d: Dir, entries: seq<DirEntry>, seen: set<string>)
    requires Lists(d, entries) && CountedUpTo(d, entries, |entries|, seen)
    ensures seen == Recorded(d)
  {
    forall x | x in Recorded(d) ensures Seen(entries, |entries|, x) {
      var j :| 0 <= j < |entries| && entries[j].name == x;
    }
  }

  lemma CountsWhen(d: Dir, entries: seq<DirEntry>, i: nat)
    requires Lists(d, entries) && i < |entries| && (entries[i].isDir || entries[i].size.Some?)
    ensures entries[i].name in Recorded(d) <==> !entries[i].isDir && entries[i].size.value > 0
  {
    assert Reports(d, entries[i]);
  }

  /** Counts the non-empty regular files of the recording; None when an entry
      cannot be examined. */
  method StagedRecordingSize(ghost d: Dir, entries: seq<DirEntry>) returns (n: Option<nat>)
    requires Lists(d, entries)
    ensures n.None? <==> exists i | 0 <= i < |entries| :: !entries[i].isDir && entries[i].size.None?
    ensures n.Some? ==> n.value == |Recorded(d)|
  {
    var count := 0;
    ghost var seen: set<string> := {};
    for i := 0 to |entries|
      invariant forall j | 0 <= j < i :: entries[j].isDir || entries[j].size.Some?
      invariant CountedUpTo(d, entries, i, seen)
      invariant count == |seen|
    {
      var e := entries[i];
      if !e.isDir && e.size.None? {
        return None;
      }
      SeenNext(d, entries, i);
      CountsWhen(d, entries, i);
      if !e.isDir {
        if e.size.value > 0 {
          seen := seen + {e.name};
          count := count + 1;
        }
      }
    }
    AllCounted(d, entries, seen);
    return Some(count);
  }

  datatype Note =
    | KeptRunFailed | KeptCaseFailed | KeptUnreadable | KeptEmpty | KeptNotAside | KeptNotPromoted
    | Created(files: nat) | Refreshed(files: nat)
    | Died

  /** How the world answers one promotion. diesAt counts system calls. */
  datatype World = World(
    entries: Option<seq<DirEntry>>,   // None: the stage cannot be read
    statFails: bool, asideFails: bool, promoteFails: bool, restoreFails: bool,
    leftOfPrev: Option<Dir>, leftAfterPromote: Option<Dir>,
    diesAt: nat)

  /** stagedRecordingSize of the stage, as the world shows it. */
  ghost function Size(stage: Dir, w: World): Option<nat> {
    match w.entries
    case None => None
    case Some(entries) =>
      if exists i | 0 <= i < |entries| :: !entries[i].isDir && entries[i].size.None? then None
      else Some(|Recorded(stage)|)
  }

  /** What a promotion comes to when no death cuts it off: each refusal in its
      turn, and success only past all of them. */
  ghost function Announced(ok: bool, recorded: Option<Dir>, stage: Dir, w: World): Note {
    if !ok then KeptCaseFailed
    else if Size(stage, w).None? then KeptUnreadable
    else if Recorded(stage) == {} then KeptEmpty
    else MoveNote(recorded, |Recorded(stage)|, w)
  }

  function MoveNote(recorded: Option<Dir>, n: nat, w: World): Note {
    var existed := recorded.Some? && !w.statFails;
    if existed && (w.asideFails || !CanReplace(w.leftOfPrev)) then KeptNotAside
    else if w.promoteFails || (!existed && !CanReplace(recorded)) then KeptNotPromoted
    else if existed then Refreshed(n) else Created(n)
  }

  /** Why each note is announced. */
  lemma AnnouncedFor(ok: bool, recorded: Option<Dir>, stage: Dir, w: World)
    ensures var note := Announced(ok, recorded, stage, w);
            && (note == KeptCaseFailed <==> !ok) && note != KeptRunFailed && note != Died
    ensures var note := Announced(ok, recorded, stage, w);
            var unreadable := w.entries.None? || exists e <- w.entries.value :: !e.isDir && e.size.None?;
            && (note == KeptUnreadable ==> unreadable)
            && (note !in {KeptCaseFailed, KeptUnreadable} ==> !unreadable)
    ensures var note := Announced(ok, recorded, stage, w);
            var empty := forall n <- stage :: stage[n].Subdir? || stage[n].data == "";
            && (note == KeptEmpty ==> empty)
            && (note in {KeptNotAside, KeptNotPromoted} || note.Created? || note.Refreshed? ==> !empty)
    ensures var note := Announced(ok, recorded, stage, w);
            var aside := recorded.Some? && !w.statFails;
            && (note == KeptNotAside ==>
                  aside && (w.asideFails || (w.leftOfPrev.Some? && w.leftOfPrev.value != map[])))
            && (aside && (note == KeptNotPromoted || note.Refreshed?) ==>
                  !w.asideFails && (w.leftOfPrev.None? || w.leftOfPrev.value == map[]))
            && (note == KeptNotPromoted ==>
                  w.promoteFails || (!aside && recorded.Some? && recorded.value != map[]))
            && (note.Created? ==> !aside) && (note.Refreshed? ==> aside)
            && (note.Created? || note.Refreshed? ==> !w.promoteFails)
    ensures var note := Announced(ok, recorded, stage, w);
            note.Created? || note.Refreshed? ==>
              note.files == |set n | n in stage && stage[n].Regular? && stage[n].data != ""|
  {
    var empty := forall n <- stage :: stage[n].Subdir? || stage[n].data == "";
    if !empty {
      var n :| n in stage && stage[n].Regular? && stage[n].data != "";
      assert n in Recorded(stage);
    }
    assert Recorded(stage) == set n | n in stage && stage[n].Regular? && stage[n].data != "";
    if w.entries.Some? {
      forall i | 0 <= i < |w.entries.value| ensures w.entries.value[i] in w.entries.value {
      }
    }
  }

  class CaseDir {
    var recorded: Option<Dir>
    var prev: Option<Dir>
    var stage: Option<Dir>
    ghost var phase: Phase
    ghost var golden: Option<Dir>
    ghost var history: seq<State>

    ghost function Now(): State
      reads this
    {
      State(Disk(recorded, prev, stage), phase, golden)
    }

    ghost predicate Valid()
      reads this
    {
      IsHistory(history) && history[|history| - 1] == Now()
    }

    constructor (recorded: Option<Dir>, prev: Option<Dir>)
      ensures Valid() && phase == Idle && this.recorded == recorded && this.prev == prev
    {
      this.recorded, this.prev, stage := recorded, prev, None;
      phase, golden := Idle, recorded;
      history := [State(Disk(recorded, prev, None), Idle, recorded)];
    }

    /** Records that the call just made was a step of the protocol. */
    ghost method Log(p: Phase, g: Option<Dir>)
      requires IsHistory(history)
      requires Next(history[|history| - 1], State(Disk(recorded, prev, stage), p, g))
      modifies this`phase, this`golden, this`history
      ensures Valid() && phase == p && golden == g
      ensures old(history) <= history
    {
      phase, golden := p, g;
      history := history + [Now()];
      forall i | 0 <= i < |history| - 1 ensures Next(history[i], history[i + 1]) {
        if i < |history| - 2 {
          assert Next(old(history)[i], old(history)[i + 1]);
        }
      }
    }

    method Die()
      requires Valid()
      modifies this
      ensures Valid() && phase == Idle && recorded == old(recorded) && prev == old(prev) && golden == old(golden)
      ensures old(history) <= history
    {
      stage := None;
      Log(Idle, golden);
    }

    /** promoteBaseline. Every statement is a protocol step, so the theorems on
        histories apply; the note says what became of recorded/. */
    method PromoteBaseline(ok: bool, w: World) returns (note: Note)
      requires Valid() && phase.Graded? && ok == phase.verdicts.Pass() && stage.Some?
      requires w.entries.Some? ==> Lists(stage.value, w.entries.value)
      requires w.statFails || recorded.None? || Eroded(prev, w.leftOfPrev)
      requires Eroded(if recorded.Some? && !w.statFails then recorded else prev, w.leftAfterPromote)
      modifies this
      ensures Valid() && old(history) <= history && phase in {DropStage, Idle}
      ensures if note == Died then w.diesAt <= 4 else note == Announced(ok, old(recorded), old(stage).value, w)
      ensures note.Created? || note.Refreshed? ==>
                ok && recorded == old(stage) && golden == old(stage) && prev == w.leftAfterPromote && stage.None?
      ensures note in {KeptCaseFailed, KeptUnreadable, KeptEmpty} ==>
                recorded == old(recorded) && prev == old(prev) && golden == old(golden)
      ensures note == KeptNotAside ==> recorded == old(recorded) && golden == old(golden)
      ensures note == KeptNotPromoted ==>
                golden == old(golden)
                && if old(recorded).Some? && !w.statFails && w.restoreFails then recorded.None? && prev == old(recorded)
                   else recorded == old(recorded)
      ensures !ok ==>
                && note in {KeptCaseFailed, Died}
                && recorded == old(recorded) && prev == old(prev) && golden == old(golden)
      ensures golden == old(golden) || golden == old(stage)
    {
      GoldenSurvives(history, |history| - 1);
      if w.diesAt == 0 {
        Die();
        return Died;
      }
      if !ok {
        Log(DropStage, golden);
        return KeptCaseFailed;
      }
      note := PromoteRecording(w);
    }

    /** A passing case's: refused when it cannot be read or holds nothing, else moved in. */
    method PromoteRecording(w: World) returns (note: Note)
      requires Valid() && phase.Graded? && phase.verdicts.Pass() && stage.Some?
      requires recorded.Some? ==> golden == recorded
      requires w.entries.Some? ==> Lists(stage.value, w.entries.value)
      requires w.statFails || recorded.None? || Eroded(prev, w.leftOfPrev)
      requires Eroded(if recorded.Some? && !w.statFails then recorded else prev, w.leftAfterPromote)
      modifies this
      ensures Valid() && old(history) <= history && phase in {DropStage, Idle}
      ensures if note == Died then w.diesAt <= 4 else note == Announced(true, old(recorded), old(stage).value, w)
      ensures note.Created? || note.Refreshed? ==>
                recorded == old(stage) && golden == old(stage) && prev == w.leftAfterPromote && stage.None?
      ensures note in {KeptUnreadable, KeptEmpty} ==>
                recorded == old(recorded) && prev == old(prev) && golden == old(golden)
      ensures note == KeptNotAside ==> recorded == old(recorded) && golden == old(golden)
      ensures note == KeptNotPromoted ==>
                golden == old(golden)
                && if old(recorded).Some? && !w.statFails && w.restoreFails then recorded.None? && prev == old(recorded)
                   else recorded == old(recorded)
      ensures golden == old(golden) || golden == old(stage)
    {
      var n := ReadStage(w);
      if n.None? {
        Log(DropStage, golden);
        return KeptUnreadable;
      }
      if n.value == 0 {
        Log(DropStage, golden);
        return KeptEmpty;
      }
      Log(Stat, golden);
      note := MoveIn(n.value, w);
    }

    method ReadStage(w: World) returns (n: Option<nat>)
      requires stage.Some? && (w.entries.Some? ==> Lists(stage.value, w.entries.value))
      ensures n == Size(stage.value, w)
    {
      n := None;
      if w.entries.Some? {
        n := StagedRecordingSize(stage.value, w.entries.value);
      }
    }

    /** From the Stat of recorded/ on: move aside, then rename in. */
    method MoveIn(n: nat, w: World) returns (note: Note)
      requires Valid() && phase == Stat && stage.Some? && n == |Recorded(stage.value)| > 0
      requires recorded.Some? ==> golden == recorded
      requires w.statFails || recorded.None? || Eroded(prev, w.leftOfPrev)
      requires Eroded(if recorded.Some? && !w.statFails then recorded else prev, w.leftAfterPromote)
      modifies this
      ensures Valid() && old(history) <= history && phase in {DropStage, Idle}
      ensures if note == Died then w.diesAt <= 4 else note == MoveNote(old(recorded), n, w)
      ensures golden == old(golden) || golden == old(stage)
      ensures note.Created? || note.Refreshed? ==>
                recorded == old(stage) && golden == old(stage) && prev == w.leftAfterPromote && stage.None?
      ensures note == KeptNotAside ==> recorded == old(recorded) && golden == old(golden)
      ensures note == KeptNotPromoted ==>
                golden == old(golden)
                && if old(recorded).Some? && !w.statFails && w.restoreFails then recorded.None? && prev == old(recorded)
                   else recorded == old(recorded)
    {
      if recorded.None? || w.statFails {
        Log(Promote(false), golden);
        note := RenameIn(false, n, w);
        return;
      }
      note := MoveAsideAndIn(n, w);
    }

    /** Where recorded/ is there: clears .baseline-prev, moves the old transcript aside. */
    method MoveAsideAndIn(n: nat, w: World) returns (note: Note)
      requires Valid() && phase == Stat && stage.Some? && n == |Recorded(stage.value)| > 0
      requires recorded.Some? && golden == recorded && !w.statFails
      requires Eroded(prev, w.leftOfPrev) && Eroded(recorded, w.leftAfterPromote)
      modifies this
      ensures Valid() && old(history) <= history && phase in {DropStage, Idle}
      ensures if note == Died then w.diesAt <= 4 else note == MoveNote(old(recorded), n, w)
      ensures golden == old(golden) || golden == old(stage)
      ensures note.Refreshed? ==>
                recorded == old(stage) && golden == old(stage) && prev == w.leftAfterPromote && stage.None?
      ensures note in {KeptNotAside, KeptNotPromoted} ==> golden == old(golden)
      ensures note == KeptNotAside ==> recorded == old(recorded)
      ensures note == KeptNotPromoted ==>
                if w.restoreFails then recorded.None? && prev == old(recorded) else recorded == old(recorded)
    {
      var died := ClearPrevious(w);
      if died {
        return Died;
      }
      if w.asideFails || !CanReplace(prev) {
        Log(DropStage, golden);
        return KeptNotAside;
      }
      prev, recorded := recorded, None;
      Log(Promote(true), golden);
      if w.diesAt == 2 {
        Die();
        return Died;
      }
      note := RenameIn(true, n, w);
    }

    method ClearPrevious(w: World) returns (died: bool)
      requires Valid() && phase == Stat && stage.Some?
      requires recorded.Some? && golden == recorded && Eroded(prev, w.leftOfPrev)
      modifies this
      ensures Valid() && old(history) <= history && died == (w.diesAt == 1)
      ensures recorded == old(recorded) && golden == old(golden)
      ensures if died then phase == Idle else phase == MoveAside && stage == old(stage) && prev == w.leftOfPrev
    {
      Log(ClearPrev, golden);
      prev := w.leftOfPrev;
      if w.diesAt == 1 {
        Log(ClearPrev, golden);
        Die();
        return true;
      }
      Log(MoveAside, golden);
      return false;
    }

    /** The rename that promotes, and the restore when it fails. */
    method RenameIn(existed: bool, n: nat, w: World) returns (note: Note)
      requires Valid() && phase == Promote(existed) && stage.Some?
      requires existed ==> recorded.None? && prev.Some?
      requires Eroded(prev, w.leftAfterPromote)
      modifies this
      ensures Valid() && old(history) <= history && phase in {DropStage, Idle}
      ensures note == (if note == Died then Died
                       else if w.promoteFails || !CanReplace(old(recorded)) then KeptNotPromoted
                       else if existed then Refreshed(n) else Created(n))
      ensures note == Died ==> w.diesAt <= 4
      ensures golden == old(golden) || golden == old(stage)
      ensures note.Created? || note.Refreshed? ==>
                recorded == old(stage) && golden == old(stage) && prev == w.leftAfterPromote && stage.None?
      ensures note == KeptNotPromoted ==> golden == old(golden)
      ensures note == KeptNotPromoted && !existed ==> recorded == old(recorded)
      ensures note == KeptNotPromoted && existed ==>
                if w.restoreFails then recorded.None? && prev == old(prev) else recorded == old(prev)
    {
      if w.promoteFails || !CanReplace(recorded) {
        Log(if existed then Restore else DropStage, golden);
        if existed {
          if w.diesAt == 3 {
            Die();
            return Died;
          }
          if !w.restoreFails {
            recorded, prev := prev, None;
          }
          Log(DropStage, golden);
        }
        return KeptNotPromoted;
      }
      recorded, stage := stage, None;
      Log(DropPrev, recorded);
      prev := w.leftAfterPromote;
      if w.diesAt == 4 {
        Log(DropPrev, golden);
        Die();
        return Died;
      }
      Log(DropStage, golden);
      return if existed then Refreshed(n) else Created(n);
    }

    /** One case of `eval --live --update-baseline`: stage, run, grade, promote, clean
        up. Each note has the one reason it names, and a passing case that none of the
        refusals meets gets its recording promoted. */
    method UpdateBaseline(run: CaseRun, w: World) returns (passed: bool, note: Note)
      requires Valid() && phase == Idle
      requires w.entries.Some? ==> Lists(run.recording, w.entries.value)
      requires w.statFails || recorded.None? || Eroded(prev, w.leftOfPrev)
      requires Eroded(if recorded.Some? && !w.statFails then recorded else prev, w.leftAfterPromote)
      modifies this
      ensures Valid() && phase == Idle && stage.None? && old(history) <= history
      ensures var v := run.verdicts;
              passed <==>
                && run.completed && v.exitCode == 0 && false !in v.assertions
                && (v.hasJudge && !v.replay ==> v.judgeSeat && !v.judgeErr && v.judgePass)
      ensures !passed ==>
                && recorded == old(recorded) && prev == old(prev) && golden == old(golden)
                && note in {KeptRunFailed, KeptCaseFailed, Died}
      ensures note == KeptRunFailed <==> !run.completed
      ensures note == KeptCaseFailed ==> run.completed && !passed
      ensures note == Died ==> run.completed && w.diesAt <= 4
      ensures var unreadable := w.entries.None? || exists e <- w.entries.value :: !e.isDir && e.size.None?;
              && (note == KeptUnreadable ==> unreadable)
              && (note !in {KeptRunFailed, KeptCaseFailed, KeptUnreadable, Died} ==> !unreadable)
      ensures var empty := forall n <- run.recording :: run.recording[n].Subdir? || run.recording[n].data == "";
              && (note == KeptEmpty ==> empty)
              && (note in {KeptNotAside, KeptNotPromoted} || note.Created? || note.Refreshed? ==> !empty)
      ensures var aside := old(recorded).Some? && !w.statFails;
              && (note == KeptNotAside ==>
                    aside && (w.asideFails || (w.leftOfPrev.Some? && w.leftOfPrev.value != map[])))
              && (aside && (note == KeptNotPromoted || note.Refreshed?) ==>
                    !w.asideFails && (w.leftOfPrev.None? || w.leftOfPrev.value == map[]))
              && (note == KeptNotPromoted ==>
                    w.promoteFails || (!aside && old(recorded).Some? && old(recorded).value != map[]))
              && (note.Created? ==> !aside) && (note.Refreshed? ==> aside)
      ensures note.Created? || note.Refreshed? ==>
                && passed && !w.promoteFails && recorded == Some(run.recording)
                && var d := run.recording;
                note.files == |set n | n in d && d[n].Regular? && d[n].data != ""|
      ensures golden == old(golden) || golden == Some(run.recording)
    {
      Record(run.recording);
      if !run.completed {
        CleanUp();
        return false, KeptRunFailed;
      }
      passed := Grade(run.verdicts);
      Log(Graded(run.verdicts), golden);
      note := PromoteBaseline(passed, w);
      AnnouncedFor(passed, old(recorded), run.recording, w);
      CleanUp();
    }

    /** Makes the staging directory and lets the run fill it. */
    method Record(recording: Dir)
      requires Valid() && phase == Idle
      modifies this
      ensures Valid() && phase == Recording && stage == Some(recording) && old(history) <= history
      ensures recorded == old(recorded) && prev == old(prev) && golden == old(golden)
    {
      GoldenSurvives(history, |history| - 1);
      stage := Some(map[]);
      Log(Recording, golden);
      stage := Some(recording);
      Log(Recording, golden);
    }

    method CleanUp()
      requires Valid() && phase in {Recording, DropStage, Idle} && (phase == Recording ==> stage.Some?)
      modifies this
      ensures Valid() && phase == Idle && stage.None? && old(history) <= history
      ensures recorded == old(recorded) && prev == old(prev) && golden == old(golden)
    {
      if phase == Recording {
        Log(DropStage, golden);
      }
      stage := None;
      Log(Idle, golden);
    }
  }

  /** One live run: whether it could be made, its verdicts, and what it recorded. */
  datatype CaseRun = CaseRun(completed: bool, verdicts: Verdicts, recording: Dir)

  /** eval.Passed of the assertions, and the judge. */
  method Grade(v: Verdicts) returns (ok: bool)
    ensures ok == v.Pass()
    ensures ok <==>
              && v.exitCode == 0 && false !in v.assertions
              && (v.hasJudge && !v.replay ==> v.judgeSeat && !v.judgeErr && v.judgePass)
  {
    var structural := true;
    for i := 0 to |v.assertions|
      invariant structural <==> false !in v.assertions[..i]
    {
      assert v.assertions[..i + 1] == v.assertions[..i] + [v.assertions[i]];
      if !v.assertions[i] {
        structural := false;
      }
    }
    assert v.assertions[..|v.assertions|] == v.assertions;
    structural := structural && v.exitCode == 0;
    var judgePass, judgeErr := true, false;
    if v.hasJudge {
      if v.replay {
      } else if !v.judgeSeat {
        judgeErr := true;
      } else {
        judgePass, judgeErr := v.judgePass, v.judgeErr;
      }
    }
    return structural && !judgeErr && judgePass;
  }
}
