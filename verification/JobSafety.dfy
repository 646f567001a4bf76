/** What holds in every world a background job can reach, wherever its launcher fails or dies. */
module JobSafety {
  import opened Wrappers
  import opened JobProtocol

  lemma ReachableIsSound(w: World)
    requires Reachable(w)
    ensures Sound(w)
  {
    var events :| Leads(INITIAL, events, w);
    SoundRun(INITIAL, events);
  }

  /**
   * The command starts only for a job whose owner record was published, and while
   * any of its processes lives that record is on disk.
   */
  lemma NeverUnowned(w: World)
    requires Reachable(w)
    ensures w.started || w.reported.Some? ==> w.owned
    ensures GroupExists(w) && w.owned ==> w.owner
    ensures w.processes > 0 ==> w.owner && w.log
  {
    ReachableIsSound(w);
  }

  /** A failed launch either proved its group gone and left no file, or left every file there was. */
  lemma AllOrNothing(w: World)
    requires Reachable(w)
    ensures w.launcher.FailedClean? ==> Over(w) && !w.log && !w.owner && w.completion.None?
    ensures w.launcher.FailedRetained? ==> w.log && (w.owned ==> w.owner) && w.completion == w.reported
    ensures w.launcher.Returned? ==> w.log && w.owner && w.released && w.completion == w.reported
  {
    ReachableIsSound(w);
  }

  /** A launcher that returned, gave up or died: it changes nothing any more. */
  predicate Settled(l: Launcher) {
    l in {Returned, FailedRetained, Dead}
  }

  lemma OverStep(w: World, e: Event)
    requires Over(w) && Enabled(w, e)
    ensures Over(Apply(w, e)) && Apply(w, e).reported == w.reported
    ensures Settled(w.launcher) ==> Apply(w, e).completion == w.completion && Settled(Apply(w, e).launcher)
  {
  }

  lemma {:induction false} OverRun(w: World, events: seq<Event>)
    requires Over(w) && CanRun(w, events)
    ensures Over(After(w, events)) && After(w, events).reported == w.reported
    ensures Settled(w.launcher) ==> After(w, events).completion == w.completion
    decreases |events|
  {
    if events != [] {
      OverStep(w, events[0]);
      OverRun(Apply(w, events[0]), events[1..]);
    }
  }

  /** Once the group is gone it stays gone, whatever the rest does, and a settled launcher leaves the completion. */
  lemma OverStays(w: World, v: World)
    requires Over(w) && Reaches(w, v)
    ensures Over(v) && v.reported == w.reported
    ensures Settled(w.launcher) ==> v.completion == w.completion
  {
    var events :| Leads(w, events, v);
    OverRun(w, events);
  }

  lemma {:induction false} UnreleasedRun(w: World, events: seq<Event>)
    requires Sound(w) && w.launcher.Dead? && !w.released && CanRun(w, events)
    ensures !After(w, events).released && Sound(After(w, events))
    decreases |events|
  {
    if events != [] {
      SoundStep(w, events[0]);
      UnreleasedRun(Apply(w, events[0]), events[1..]);
    }
  }

  /** A launcher that dies before it opened the gate: the command never starts, and nothing is reported. */
  lemma DeathBeforeRelease(w: World, v: World)
    requires Reachable(w) && w.launcher.Dead? && !w.released && Reaches(w, v)
    ensures !v.started && v.processes == 0 && v.reported.None?
  {
    ReachableIsSound(w);
    var events :| Leads(w, events, v);
    UnreleasedRun(w, events);
  }

  /** When the launcher is through, in whatever way, the supervisor is not left waiting at the gate. */
  lemma GateNeverBlocks(w: World)
    requires Reachable(w) && w.supervisor.AtGate? && w.launcher in {Returned, FailedClean, FailedRetained, Dead}
    ensures Enabled(w, if w.released then ReadGate else GateCloses)
  {
    ReachableIsSound(w);
  }

  /** For an owned job, no group means the group is gone for good. */
  lemma NoGroupIsOver(w: World)
    requires Reachable(w) && w.owned && !GroupExists(w)
    ensures Over(w)
  {
    ReachableIsSound(w);
  }

  // The exit code

  predicate Ended(s: Supervisor) {
    s.Finished? || s.Reported? || s.Zombie? || s.Reaped?
  }

  predicate EndsCommand(e: Event) {
    e.CommandReturns? || e.StartFails?
  }

  /** `c` is what the command of a run returned, or 127 for one that could not start; it ends only once. */
  ghost predicate OwnCode(events: seq<Event>, c: int) {
    && (CommandReturns(c) in events || (StartFails in events && c == 127))
    && (forall e | e in events && e.CommandReturns? :: e.exitCode == c)
    && (StartFails in events ==> c == 127)
  }

  /** What an ended supervisor has reported, or may yet report. */
  predicate Holds(w: World, c: int) {
    w.reported == Some(c) || w.supervisor == Finished(c)
  }

  /** No fork comes once there is a supervisor. */
  predicate ForkFirst(w: World) {
    w.launcher.Forking? || w.launcher.OpeningLog? ==> w.supervisor.NotForked?
  }

  lemma EndedStep(w: World, e: Event, c: int)
    requires ForkFirst(w) && Ended(w.supervisor) && Enabled(w, e)
    ensures Ended(Apply(w, e).supervisor) && !EndsCommand(e)
    ensures Holds(Apply(w, e), c) ==> Holds(w, c)
  {
    match e
    case Kill =>
    case PublishCompletion =>
    case Exit =>
    case SupervisorDies =>
    case Reap =>
    case _ =>
  }

  lemma {:induction false} EndedRun(w: World, events: seq<Event>, c: int)
    requires Sound(w) && Ended(w.supervisor) && CanRun(w, events)
    ensures forall e | e in events :: !EndsCommand(e)
    ensures Holds(After(w, events), c) ==> Holds(w, c)
    decreases |events|
  {
    if events != [] {
      SoundStep(w, events[0]);
      EndedStep(w, events[0], c);
      EndedRun(Apply(w, events[0]), events[1..], c);
      assert forall e | e in events :: e == events[0] || e in events[1..];
    }
  }

  lemma FirstEnd(w: World, e: Event, c: int)
    requires ForkFirst(w) && !Ended(w.supervisor) && w.reported.None? && Enabled(w, e)
    ensures Apply(w, e).reported.None?
    ensures !Ended(Apply(w, e).supervisor) ==> !EndsCommand(e)
    ensures Holds(Apply(w, e), c) ==> e == CommandReturns(c) || (e.StartFails? && c == 127)
  {
    match e
    case Fork =>
    case Kill =>
    case ReadGate =>
    case GateCloses =>
    case StartCommand =>
    case StartFails =>
    case CommandReturns(_) =>
    case SupervisorDies =>
    case _ =>
  }

  lemma {:induction false} CodeRun(w: World, events: seq<Event>, c: int)
    requires Sound(w) && !Ended(w.supervisor) && w.reported.None? && CanRun(w, events)
    requires Holds(After(w, events), c)
    ensures OwnCode(events, c)
    decreases |events|
  {
    if events != [] {
      var next, rest := Apply(w, events[0]), events[1..];
      SoundStep(w, events[0]);
      FirstEnd(w, events[0], c);
      assert forall e | e in events :: e == events[0] || e in rest;
      if Ended(next.supervisor) {
        EndedRun(next, rest, c);
        assert events[0] in events;
      } else {
        CodeRun(next, rest, c);
      }
    }
  }

  /** What is reported is what the command itself returned, in whatever run. */
  lemma CodeTruly(w: World, events: seq<Event>, c: int)
    requires Leads(INITIAL, events, w) && w.reported == Some(c)
    ensures OwnCode(events, c)
  {
    CodeRun(INITIAL, events, c);
  }
}
