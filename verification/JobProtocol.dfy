/**
 * A background job as its steps: the launcher, the supervisor it forks, the
 * processes of the command, the gate between them, and the files they publish.
 */
module JobProtocol {
  import opened Wrappers

  /** Where launch is, by what it does next; any of its steps may raise instead, and it may die at any of them. */
  datatype Launcher =
    | OpeningLog | Forking | Inspecting | PublishingOwner | Releasing | Returning | Returned
    | Killing | Watching | RemovingLog | RemovingCompletion | RemovingOwner | FailedClean | FailedRetained
    | Dead

  /** Where _run is; a zombie has ended and is not yet reaped. */
  datatype Supervisor = NotForked | AtGate | Released | Waiting | Finished(exitCode: int) | Reported | Zombie | Reaped

  /**
   * `gate` is the byte in the pipe and `open` its write end.  `processes` counts
   * the live processes of the command, which all stay in the supervisor's group.
   * The last four fields only remember.
   */
  datatype World = World(
    launcher: Launcher, supervisor: Supervisor, processes: nat, gate: bool, open: bool,
    log: bool, owner: bool, completion: Option<int>,
    released: bool, started: bool, owned: bool, reported: Option<int>)

  const INITIAL: World :=
    World(OpeningLog, NotForked, 0, false, true, false, false, None, false, false, false, None)

  datatype Event =
    // launch
    | OpenLog | Fork | ForkFails | Inspect | PublishOwner | Release | Return | Raise
    | Kill | ProveEmpty | GiveUp | RemoveLog | RemoveCompletion | RemoveOwner | LauncherDies
    // _run
    | ReadGate | GateCloses | StartCommand | StartFails | CommandReturns(exitCode: int)
    | PublishCompletion | Exit
    // the rest of the system
    | ProcessForks | ProcessEnds | SupervisorDies | Reap

  predicate Alive(s: Supervisor) {
    !s.NotForked? && !s.Zombie? && !s.Reaped?
  }

  /** The kernel keeps the group while any member, or an unreaped leader, remains. */
  predicate GroupExists(w: World) {
    Alive(w.supervisor) || w.supervisor.Zombie? || w.processes > 0
  }

  predicate Enabled(w: World, e: Event) {
    match e
    case OpenLog => w.launcher.OpeningLog?
    case Fork => w.launcher.Forking?
    case ForkFails => w.launcher.Forking?
    case Inspect => w.launcher.Inspecting?
    case PublishOwner => w.launcher.PublishingOwner?
    case Release => w.launcher.Releasing?
    case Return => w.launcher.Returning?
    case Raise => w.launcher in {Inspecting, PublishingOwner, Releasing, Returning}
    case Kill => w.launcher.Killing?
    case ProveEmpty => w.launcher.Watching? && !GroupExists(w)
    case GiveUp => w.launcher.Watching?
    case RemoveLog => w.launcher.RemovingLog?
    case RemoveCompletion => w.launcher.RemovingCompletion?
    case RemoveOwner => w.launcher.RemovingOwner?
    case LauncherDies => w.launcher !in {Returned, FailedClean, FailedRetained, Dead}
    case ReadGate => w.supervisor.AtGate? && w.gate
    case GateCloses => w.supervisor.AtGate? && !w.gate && !w.open
    case StartCommand => w.supervisor.Released?
    case StartFails => w.supervisor.Released?
    case CommandReturns(_) => w.supervisor.Waiting?
    case PublishCompletion => w.supervisor.Finished? && w.completion.None?
    case Exit => w.supervisor.Finished? || w.supervisor.Reported?
    case ProcessForks => w.processes > 0
    case ProcessEnds => w.processes > 0
    case SupervisorDies => Alive(w.supervisor)
    case Reap => w.supervisor.Zombie?
  }

  function Apply(w: World, e: Event): (v: World)
    requires Enabled(w, e)
    ensures w.owned ==> v.owned
  {
    match e
    case OpenLog => w.(launcher := Forking, log := true)
    case Fork => w.(launcher := Inspecting, supervisor := AtGate)
    case ForkFails => w.(launcher := RemovingLog)
    case Inspect => w.(launcher := PublishingOwner)
    case PublishOwner => w.(launcher := Releasing, owner := true, owned := true)
    case Release => w.(launcher := Returning, gate := true, released := true)
    case Return => w.(launcher := Returned, open := false)
    case Raise => w.(launcher := Killing)
    case Kill =>
      w.(launcher := Watching, supervisor := if Alive(w.supervisor) then Zombie else w.supervisor, processes := 0)
    case ProveEmpty => w.(launcher := RemovingLog)
    case GiveUp => w.(launcher := FailedRetained, open := false)
    case RemoveLog => w.(launcher := RemovingCompletion, log := false)
    case RemoveCompletion => w.(launcher := RemovingOwner, completion := None)
    case RemoveOwner => w.(launcher := FailedClean, owner := false, open := false)
    case LauncherDies => w.(launcher := Dead, open := false)
    case ReadGate => w.(supervisor := Released, gate := false)
    case GateCloses => w.(supervisor := Zombie)
    case StartCommand => w.(supervisor := Waiting, processes := w.processes + 1, started := true)
    case StartFails => w.(supervisor := Finished(127))
    case CommandReturns(exitCode) => w.(supervisor := Finished(exitCode))
    case PublishCompletion =>
      w.(supervisor := Reported, completion := Some(w.supervisor.exitCode), reported := Some(w.supervisor.exitCode))
    case Exit => w.(supervisor := Zombie)
    case ProcessForks => w.(processes := w.processes + 1)
    case ProcessEnds => w.(processes := w.processes - 1)
    case SupervisorDies => w.(supervisor := Zombie)
    case Reap => w.(supervisor := Reaped)
  }

  /** The steps of others; launch takes the rest itself. */
  predicate ByOthers(e: Event) {
    || e.ReadGate? || e.GateCloses? || e.StartCommand? || e.StartFails? || e.CommandReturns? || e.PublishCompletion?
    || e.Exit? || e.ProcessForks? || e.ProcessEnds? || e.SupervisorDies? || e.Reap?
  }

  /** The world after a run of events. */
  predicate CanRun(w: World, events: seq<Event>)
    decreases |events|
  {
    events == [] || (Enabled(w, events[0]) && CanRun(Apply(w, events[0]), events[1..]))
  }

  function After(w: World, events: seq<Event>): World
    requires CanRun(w, events)
    decreases |events|
  {
    if events == [] then w else After(Apply(w, events[0]), events[1..])
  }

  ghost predicate Leads(w: World, events: seq<Event>, v: World) {
    CanRun(w, events) && After(w, events) == v
  }

  ghost predicate Reaches(w: World, v: World) {
    exists events :: Leads(w, events, v)
  }

  ghost predicate Reachable(w: World) {
    Reaches(INITIAL, w)
  }

  lemma {:induction false} RunsJoin(w: World, first: seq<Event>, second: seq<Event>)
    requires CanRun(w, first) && CanRun(After(w, first), second)
    ensures CanRun(w, first + second) && After(w, first + second) == After(After(w, first), second)
    decreases |first|
  {
    if first == [] {
      assert first + second == second;
    } else {
      RunsJoin(Apply(w, first[0]), first[1..], second);
      assert (first + second)[1..] == first[1..] + second;
    }
  }

  lemma ReachesOn(u: World, v: World, w: World)
    requires Reaches(u, v) && Reaches(v, w)
    ensures Reaches(u, w)
  {
    var first :| Leads(u, first, v);
    var second :| Leads(v, second, w);
    RunsJoin(u, first, second);
    assert Leads(u, first + second, w);
  }

  lemma OneStep(v: World, e: Event)
    requires Enabled(v, e)
    ensures Leads(v, [e], Apply(v, e))
  {
    assert [e][1..] == [];
    assert CanRun(Apply(v, e), [e][1..]) && After(Apply(v, e), [e][1..]) == Apply(v, e);
    assert CanRun(v, [e]) && After(v, [e]) == After(Apply(v, e), [e][1..]);
  }

  lemma ReachesNext(u: World, v: World, e: Event)
    requires Reaches(u, v) && Enabled(v, e)
    ensures Reaches(u, Apply(v, e))
  {
    OneStep(v, e);
    ReachesOn(u, v, Apply(v, e));
  }

  // What every step keeps

  predicate Removing(l: Launcher) {
    l in {RemovingLog, RemovingCompletion, RemovingOwner, FailedClean}
  }

  /** The group is gone and nobody will make it again. */
  predicate Over(w: World) {
    w.processes == 0 && (w.supervisor.Reaped? || w.supervisor.NotForked?) && w.launcher !in {OpeningLog, Forking}
  }

  /** How far the launcher has come without failing. */
  predicate Early(l: Launcher) {
    l in {OpeningLog, Forking, Inspecting, PublishingOwner, Releasing}
  }

  /** The gate opens only for an owned job, nothing starts before it opens, and nobody waits at it for ever. */
  predicate GateSound(w: World) {
    && (w.gate ==> w.released) && (w.released ==> w.owned)
    && (Alive(w.supervisor) && !w.supervisor.AtGate? ==> w.released)
    && (w.started ==> w.released) && (w.processes > 0 ==> w.started) && (w.reported.Some? ==> w.released)
    && (w.supervisor.AtGate? && w.released ==> w.gate)
    && (w.supervisor.NotForked? ==> !w.owned && w.processes == 0)
    && (w.supervisor.Reported? ==> w.reported.Some?)
  }

  /** How far the launcher has come says what has happened. */
  predicate LauncherSound(w: World) {
    && (w.launcher in {OpeningLog, Forking, Inspecting, PublishingOwner} ==> !w.owned && !w.owner)
    && (Early(w.launcher) ==> !w.released)
    && (w.launcher in {Returning, Returned} ==> w.released)
    && (w.launcher in {OpeningLog, Forking} ==> w.supervisor.NotForked?)
    && (w.launcher in {Inspecting, PublishingOwner, Releasing, Returning, Returned} ==> !w.supervisor.NotForked?)
    && (w.launcher in {Returned, FailedClean, FailedRetained, Dead} ==> !w.open)
  }

  /** Files are removed only once the group is gone for good. */
  predicate RemovalSound(w: World) {
    && (Removing(w.launcher) ==> Over(w))
    && (w.owned && !w.owner ==> Over(w))
    && (w.reported != w.completion ==> Over(w) && w.completion.None?)
    && (!w.log ==> w.launcher.OpeningLog? || Over(w) || (w.launcher.Dead? && w.supervisor.NotForked? && !w.owned))
  }

  /** What the launcher has left on disk at each of its steps. */
  predicate FilesSound(w: World) {
    && (w.owner ==> w.owned)
    && (w.launcher in {Releasing, Returning, Returned} ==> w.owner)
    && (!Removing(w.launcher) && !w.launcher.Dead? ==>
          (w.owned ==> w.owner) && w.completion == w.reported && (w.launcher.OpeningLog? || w.log))
    && (w.launcher in {RemovingCompletion, RemovingOwner, FailedClean} ==> !w.log)
    && (w.launcher in {RemovingOwner, FailedClean} ==> w.completion.None?)
    && (w.launcher.FailedClean? ==> !w.owner)
  }

  predicate Sound(w: World) {
    GateSound(w) && LauncherSound(w) && RemovalSound(w) && FilesSound(w)
  }

  lemma GateStep(w: World, e: Event)
    requires Sound(w) && Enabled(w, e)
    ensures GateSound(Apply(w, e))
  {
  }

  lemma OthersKeepLauncher(w: World, e: Event)
    requires LauncherSound(w) && Enabled(w, e) && ByOthers(e)
    ensures LauncherSound(Apply(w, e))
  {
  }

  lemma LaunchKeepsLauncher(w: World, e: Event)
    requires LauncherSound(w) && Enabled(w, e) && !ByOthers(e)
    ensures LauncherSound(Apply(w, e))
  {
  }

  lemma LauncherStep(w: World, e: Event)
    requires Sound(w) && Enabled(w, e)
    ensures LauncherSound(Apply(w, e))
  {
    if ByOthers(e) {
      OthersKeepLauncher(w, e);
    } else {
      LaunchKeepsLauncher(w, e);
    }
  }

  lemma RemovalStep(w: World, e: Event)
    requires Sound(w) && Enabled(w, e)
    ensures RemovalSound(Apply(w, e))
  {
  }

  lemma FilesStep(w: World, e: Event)
    requires Sound(w) && Enabled(w, e)
    ensures FilesSound(Apply(w, e))
  {
  }

  lemma SoundStep(w: World, e: Event)
    requires Sound(w) && Enabled(w, e)
    ensures Sound(Apply(w, e))
  {
    GateStep(w, e);
    LauncherStep(w, e);
    RemovalStep(w, e);
    FilesStep(w, e);
  }

  lemma {:induction false} SoundRun(w: World, events: seq<Event>)
    requires Sound(w) && CanRun(w, events)
    ensures Sound(After(w, events))
    decreases |events|
  {
    if events != [] {
      SoundStep(w, events[0]);
      SoundRun(Apply(w, events[0]), events[1..]);
    }
  }
}
