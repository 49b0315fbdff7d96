/** The daemon's session record: the heal (internal/session/selfheal.go's SelfHeal),
    the guard goroutine that applies it, and the shutdown it must not race
    (runDaemon and startSessionRecordGuard in cmd/rysh/main.go). */
module RecordGuard {
  import opened Text

  datatype Record = Record(state: string, pid: int, natsPort: int, source: string, tuiPids: seq<int>,
                           appClients: int, proxyPort: int, webPort: int)

  // ---------------------------------------------------------------- the heal

  /** The record tells of this live daemon. */
  predicate Truthful(r: Record, self: Record) {
    r.pid == self.pid && r.natsPort == self.natsPort && (r.state == "running" || r.state == "detached")
  }

  function Alive(pids: seq<int>, alive: set<int>): seq<int> {
    if pids == [] then [] else (if pids[0] in alive then [pids[0]] else []) + Alive(pids[1..], alive)
  }

  function SelfHeal(existing: Option<Record>, self: Record, alive: set<int>): (Record, bool) {
    if existing.Some? && Truthful(existing.value, self) then (existing.value, false)
    else
      var healed := self.(state := "detached",
                          source := if existing.Some? && existing.value.source != "" then existing.value.source
                                    else self.source);
      if existing.Some? && existing.value.pid == self.pid then
        var was := existing.value;
        var kept := healed.(tuiPids := Alive(was.tuiPids, alive), appClients := was.appClients,
                            proxyPort := was.proxyPort, webPort := was.webPort);
        (if kept.tuiPids != [] then kept.(state := "running") else kept, true)
      else (healed, true)
  }

  /** A heal is needed exactly when the record does not tell of this live daemon,
      leaves nothing to heal, and is the daemon's own record but for the provenance
      and, when the record on disk was its own, what the live daemon maintains. */
  lemma HealTellsTheTruth(existing: Option<Record>, self: Record, alive: set<int>, aliveLater: set<int>)
    ensures var (healed, changed) := SelfHeal(existing, self, alive);
            && (!changed <==>
                  && existing.Some? && existing.value.pid == self.pid && existing.value.natsPort == self.natsPort
                  && existing.value.state in ["running", "detached"])
            && (!changed ==> existing == Some(healed))
            && SelfHeal(Some(healed), self, aliveLater) == (healed, false)
            && healed.pid == self.pid && healed.natsPort == self.natsPort && healed.state in ["running", "detached"]
    ensures var (healed, changed) := SelfHeal(existing, self, alive);
            changed ==>
              && healed.source == (if existing.Some? && existing.value.source != "" then existing.value.source
                                   else self.source)
              && (if existing.Some? && existing.value.pid == self.pid then
                    && healed.appClients == existing.value.appClients && healed.proxyPort == existing.value.proxyPort
                    && healed.webPort == existing.value.webPort
                    && healed.tuiPids == Alive(existing.value.tuiPids, alive)
                    && (healed.state == "running" <==> exists p <- existing.value.tuiPids :: p in alive)
                  else
                    && healed.appClients == self.appClients && healed.proxyPort == self.proxyPort
                    && healed.webPort == self.webPort && healed.tuiPids == self.tuiPids && healed.state == "detached")
  {
    if existing.Some? {
      AliveNonEmpty(existing.value.tuiPids, alive);
    }
  }

  lemma {:induction false} AliveConcat(a: seq<int>, b: seq<int>, alive: set<int>)
    ensures Alive(a + b, alive) == Alive(a, alive) + Alive(b, alive)
  {
    if a == [] {
      assert a + b == b;
    } else {
      AliveConcat(a[1..], b, alive);
      var first := if a[0] in alive then [a[0]] else [];
      assert (a + b)[0] == a[0] && (a + b)[1..] == a[1..] + b;
      assert first + (Alive(a[1..], alive) + Alive(b, alive)) == first + Alive(a[1..], alive) + Alive(b, alive);
    }
  }

  /** Who is alive stays, one after the other, and nobody else. */
  lemma AliveIs(a: seq<int>, b: seq<int>, pid: int, alive: set<int>)
    ensures Alive(a + b, alive) == Alive(a, alive) + Alive(b, alive)
    ensures Alive([pid], alive) == if pid in alive then [pid] else []
  {
    AliveConcat(a, b, alive);
    assert [pid][1..] == [];
  }

  lemma {:induction false} AliveNonEmpty(pids: seq<int>, alive: set<int>)
    ensures Alive(pids, alive) != [] <==> exists p <- pids :: p in alive
  {
    if pids != [] {
      AliveNonEmpty(pids[1..], alive);
      assert forall p :: p in pids <==> p == pids[0] || p in pids[1..];
      assert Alive(pids, alive) != [] <==> pids[0] in alive || Alive(pids[1..], alive) != [];
    }
  }

  // ---------------------------------------------------------------- daemon, guard and everybody else

  datatype Deferred = MarkStopped | StopGuard

  datatype Main = Serving | Unwinding | WaitingForGuard | Ended

  datatype Guard = Selecting | Fetched(existing: Option<Record>) | Exited

  datatype Writer = Healed | Stopped | Other

  /** writes is the history of the record file; defers the stack of pending
      deferred calls, the last registered at the end. */
  datatype State = State(main: Main, defers: seq<Deferred>, guard: Guard, done: bool,
                         disk: Option<Record>, writes: seq<Writer>)

  datatype Daemon = Daemon(self: Record)
  {
    /** runDaemon registers the mark first and the guard's stop after it. */
    ghost predicate Start(s: State) {
      s.main == Serving && s.defers == [MarkStopped, StopGuard] && s.guard == Selecting && !s.done && s.writes == []
    }

    /** The body of runDaemon returns; deferred calls run last in, first out. */
    ghost predicate MainStep(s: State, t: State) {
      match s.main
      case Serving => t == s.(main := Unwinding)
      case Unwinding =>
        if s.defers == [] then t == s.(main := Ended)
        else
          var rest := s.(defers := s.defers[..|s.defers| - 1]);
          (match s.defers[|s.defers| - 1]
           case StopGuard => t == rest.(done := true, main := WaitingForGuard)
           case MarkStopped =>
             || t == rest   // the write can fail
             || t == rest.(disk := Some(self.(state := "stopped", pid := 0)), writes := s.writes + [Stopped]))
      case WaitingForGuard => s.guard.Exited? && t == s.(main := Unwinding)
      case Ended => false
    }

    /** select: a tick, or done once it is closed — Go may take either. */
    ghost predicate GuardStep(s: State, t: State, alive: set<int>) {
      match s.guard
      case Selecting =>
        || t == s.(guard := Fetched(s.disk)) || t == s.(guard := Fetched(None))
        || (s.done && t == s.(guard := Exited))
      case Fetched(existing) =>
        var (healed, changed) := SelfHeal(existing, self, alive);
        || t == s.(guard := Selecting)   // nothing to heal, or the write failed
        || (changed && t == s.(guard := Selecting, disk := Some(healed), writes := s.writes + [Healed]))
      case Exited => false
    }

    /** Other processes sharing the registry may rewrite or delete the file. */
    ghost predicate OtherStep(s: State, t: State) {
      t == s.(disk := t.disk, writes := s.writes + [Other])
    }

    ghost predicate Next(s: State, t: State) {
      MainStep(s, t) || OtherStep(s, t) || exists alive :: GuardStep(s, t, alive)
    }

    ghost predicate IsRun(h: seq<State>) {
      h != [] && Start(h[0]) && forall i | 0 <= i < |h| - 1 :: Next(h[i], h[i + 1])
    }

    /** What every state of a run keeps. */
    ghost predicate Inv(s: State) {
      && (s.defers == [MarkStopped, StopGuard] || s.defers == [MarkStopped] || s.defers == [])
      && (s.main.Serving? ==> s.defers == [MarkStopped, StopGuard])
      && (s.main.WaitingForGuard? ==> s.defers == [MarkStopped] && s.done)
      && (s.defers == [] || (s.defers == [MarkStopped] && s.main.Unwinding?) ==> s.guard.Exited?)
      && (Stopped in s.writes ==> s.defers == [])
      && (s.main.Ended? ==> s.defers == [])
    }

    lemma NextKeepsInv(s: State, t: State)
      requires Inv(s) && Next(s, t)
      ensures Inv(t)
      ensures s.writes <= t.writes
      ensures Stopped in s.writes ==> t.writes == s.writes || t.writes == s.writes + [Other]
    {}

    lemma {:induction false} EveryStateKeepsInv(h: seq<State>, i: nat)
      requires IsRun(h) && i < |h|
      ensures Inv(h[i])
    {
      if i > 0 {
        EveryStateKeepsInv(h, i - 1);
        assert Next(h[i - 1], h[i]);
        NextKeepsInv(h[i - 1], h[i]);
      }
    }

    ghost predicate NoHealAfterMark(writes: seq<Writer>) {
      forall i, j | 0 <= i < j < |writes| && writes[i] == Stopped :: writes[j] == Other
    }

    /** In every interleaving: once the guard's stop returned the goroutine is
        gone, so no heal ever follows the "stopped" mark. */
    lemma {:induction false} MarkIsNeverHealed(h: seq<State>, i: nat)
      requires IsRun(h) && i < |h|
      ensures NoHealAfterMark(h[i].writes)
      ensures Stopped in h[i].writes ==> h[i].guard.Exited?
    {
      EveryStateKeepsInv(h, i);
      if i > 0 {
        MarkIsNeverHealed(h, i - 1);
        EveryStateKeepsInv(h, i - 1);
        assert Next(h[i - 1], h[i]);
        NextKeepsInv(h[i - 1], h[i]);
        MarkStays(h[i - 1], h[i]);
      }
    }

    /** A step adds no heal behind the mark. */
    lemma MarkStays(s: State, t: State)
      requires Inv(s) && Inv(t) && Next(s, t) && NoHealAfterMark(s.writes) && s.writes <= t.writes
      requires Stopped in s.writes ==> s.guard.Exited?
      requires Stopped in s.writes ==> t.writes == s.writes || t.writes == s.writes + [Other]
      ensures NoHealAfterMark(t.writes) && (Stopped in t.writes ==> t.guard.Exited?)
    {
      assert t.writes != s.writes ==> t.writes[..|s.writes|] == s.writes;
    }

    /** The mark is what is left on disk, unless another process wrote after it. */
    lemma {:induction false} MarkStands(h: seq<State>, i: nat)
      requires IsRun(h) && i < |h| && h[i].writes != [] && h[i].writes[|h[i].writes| - 1] == Stopped
      ensures h[i].disk == Some(self.(state := "stopped", pid := 0))
    {
      assert Next(h[i - 1], h[i]);
      if h[i].writes == h[i - 1].writes {
        MarkStands(h, i - 1);
      }
    }

    /** The order of the two defers is what does it: with the guard's stop
        registered first, a heal can follow the mark. */
    lemma OtherOrderRaces(s: State) returns (h: seq<State>)
      requires s.main == Unwinding && s.defers == [StopGuard, MarkStopped] && s.guard == Selecting && s.writes == []
      ensures |h| > 1 && h[0] == s && forall i | 0 <= i < |h| - 1 :: Next(h[i], h[i + 1])
      ensures h[|h| - 1].writes == [Stopped, Healed]
    {
      var mark := self.(state := "stopped", pid := 0);
      var a := s.(defers := [StopGuard], disk := Some(mark), writes := [Stopped]);
      var b := a.(guard := Fetched(Some(mark)));
      var (healed, changed) := SelfHeal(Some(mark), self, {});
      var c := b.(guard := Selecting, disk := Some(healed), writes := [Stopped] + [Healed]);
      assert s.defers[..1] == [StopGuard];
      assert MainStep(s, a) && GuardStep(a, b, {}) && GuardStep(b, c, {});
      h := [s, a, b, c];
    }
  }
}
