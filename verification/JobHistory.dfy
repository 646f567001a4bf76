/** What a world says of a job is what has happened to it, and what may still happen. */
module JobHistory {
  import opened JobProtocol
  import opened JobSafety

  /** The files on disk are those that were published and not removed. */
  ghost predicate FilesTell(past: multiset<Event>, w: World) {
    && (w.log <==> OpenLog in past && RemoveLog !in past)
    && (w.owner <==> PublishOwner in past && RemoveOwner !in past)
    && (w.completion.Some? <==> PublishCompletion in past && RemoveCompletion !in past)
    && (w.owned <==> PublishOwner in past)
    && (w.reported.Some? <==> PublishCompletion in past)
  }

  /** The gate: its byte was written and not read, its end is open to no launcher that is through. */
  ghost predicate GateTells(past: multiset<Event>, w: World) {
    && (w.released <==> Release in past)
    && (w.gate <==> Release in past && ReadGate !in past)
    && (w.open <==> Return !in past && GiveUp !in past && RemoveOwner !in past && LauncherDies !in past)
    && (ReadGate in past ==> Release in past)
    && (GateCloses in past ==> Release !in past && ReadGate !in past && !w.open)
  }

  /** A supervisor lives from its fork until it leaves or is killed, and is there until it is reaped. */
  ghost predicate SupervisorTells(past: multiset<Event>, w: World) {
    && (w.supervisor.NotForked? <==> Fork !in past)
    && (Fork !in past ==>
          Kill !in past && SupervisorDies !in past && Exit !in past && GateCloses !in past && ReadGate !in past)
    && (w.supervisor.Reaped? <==> Reap in past)
    && (Alive(w.supervisor) <==>
          Fork in past && Kill !in past && SupervisorDies !in past && Exit !in past && GateCloses !in past)
    && (Alive(w.supervisor) ==> (w.supervisor.AtGate? <==> ReadGate !in past))
  }

  /** The processes are those that were started and have not ended; a kill ends them all. */
  ghost predicate ProcessesTell(past: multiset<Event>, w: World) {
    && (w.started <==> StartCommand in past)
    && (Kill in past ==> w.processes == 0)
    && (Kill !in past ==> w.processes + past[ProcessEnds] == past[StartCommand] + past[ProcessForks])
  }

  /** Files are removed only of a job that is gone. */
  ghost predicate RemovalTells(past: multiset<Event>, w: World) {
    RemoveLog in past || RemoveCompletion in past || RemoveOwner in past ==> Over(w)
  }

  /** Which of its last steps a launcher has taken. */
  ghost predicate LauncherTells(past: multiset<Event>, w: World) {
    && (RemoveLog in past ==> w.launcher in {RemovingCompletion, RemovingOwner, FailedClean, Dead})
    && (RemoveCompletion in past ==> w.launcher in {RemovingOwner, FailedClean, Dead})
    && (RemoveOwner in past ==> w.launcher.FailedClean?)
    && (Kill in past ==> w.launcher in {Watching, FailedRetained, Dead} || Removing(w.launcher))
    && (w.launcher in {Killing, Watching} ==> Fork in past)
    && (w.launcher.Dead? <==> LauncherDies in past)
    && (w.launcher.Returned? <==> Return in past)
    && (w.launcher.FailedRetained? <==> GiveUp in past)
    && (w.launcher.FailedClean? ==> RemoveOwner in past)
  }

  ghost predicate Tells(past: multiset<Event>, w: World) {
    && FilesTell(past, w) && GateTells(past, w) && SupervisorTells(past, w) && ProcessesTell(past, w)
    && RemovalTells(past, w) && LauncherTells(past, w)
  }

  lemma FilesStep(past: multiset<Event>, w: World, e: Event)
    requires Sound(w) && Enabled(w, e) && FilesTell(past, w) && RemovalTells(past, w) && LauncherTells(past, w)
    ensures FilesTell(past + multiset{e}, Apply(w, e))
  {
    match e
    case OpenLog =>
    case PublishOwner =>
    case PublishCompletion =>
    case RemoveLog =>
    case RemoveCompletion =>
    case RemoveOwner =>
    case _ =>
  }

  lemma GateStep(past: multiset<Event>, w: World, e: Event)
    requires Sound(w) && Enabled(w, e) && GateTells(past, w) && SupervisorTells(past, w) && LauncherTells(past, w)
    ensures GateTells(past + multiset{e}, Apply(w, e))
  {
    match e
    case Release =>
    case Return =>
    case GiveUp =>
    case RemoveOwner =>
    case LauncherDies =>
    case ReadGate =>
    case GateCloses =>
    case _ =>
  }

  lemma SupervisorStep(past: multiset<Event>, w: World, e: Event)
    requires Sound(w) && Enabled(w, e) && SupervisorTells(past, w) && LauncherTells(past, w)
    ensures SupervisorTells(past + multiset{e}, Apply(w, e))
  {
    match e
    case Fork =>
    case Kill =>
    case ReadGate =>
    case GateCloses =>
    case Exit =>
    case SupervisorDies =>
    case Reap =>
    case _ =>
  }

  lemma ProcessesStep(past: multiset<Event>, w: World, e: Event)
    requires Sound(w) && Enabled(w, e) && SupervisorTells(past, w) && ProcessesTell(past, w)
    ensures ProcessesTell(past + multiset{e}, Apply(w, e))
  {
    match e
    case Kill =>
    case StartCommand =>
    case ProcessForks =>
    case ProcessEnds =>
    case _ =>
  }

  lemma RemovalStep(past: multiset<Event>, w: World, e: Event)
    requires Sound(w) && Enabled(w, e) && RemovalTells(past, w)
    ensures RemovalTells(past + multiset{e}, Apply(w, e))
  {
    if Over(w) {
      OverStep(w, e);
    }
  }

  lemma LauncherStep(past: multiset<Event>, w: World, e: Event)
    requires Sound(w) && Enabled(w, e) && SupervisorTells(past, w) && LauncherTells(past, w)
    ensures LauncherTells(past + multiset{e}, Apply(w, e))
  {
    match e
    case Raise =>
    case Kill =>
    case RemoveLog =>
    case RemoveCompletion =>
    case RemoveOwner =>
    case Return =>
    case GiveUp =>
    case LauncherDies =>
    case _ =>
  }

  lemma TellsStep(past: multiset<Event>, w: World, e: Event)
    requires Sound(w) && Tells(past, w) && Enabled(w, e)
    ensures Tells(past + multiset{e}, Apply(w, e))
  {
    FilesStep(past, w, e);
    GateStep(past, w, e);
    SupervisorStep(past, w, e);
    ProcessesStep(past, w, e);
    RemovalStep(past, w, e);
    LauncherStep(past, w, e);
  }

  lemma {:induction false} TellsOn(past: multiset<Event>, w: World, events: seq<Event>)
    requires Sound(w) && Tells(past, w) && CanRun(w, events)
    ensures Tells(past + multiset(events), After(w, events))
    decreases |events|
  {
    if events == [] {
      assert past + multiset(events) == past;
    } else {
      SoundStep(w, events[0]);
      TellsStep(past, w, events[0]);
      TellsOn(past + multiset{events[0]}, Apply(w, events[0]), events[1..]);
      assert events == [events[0]] + events[1..];
      assert past + multiset{events[0]} + multiset(events[1..]) == past + multiset(events);
    }
  }

  /** In every run a world's files, gate, supervisor and processes are those its events have left. */
  lemma HistoryTells(w: World, events: seq<Event>)
    requires Leads(INITIAL, events, w)
    ensures Tells(multiset(events), w)
  {
    TellsOn(multiset{}, INITIAL, events);
    assert multiset{} + multiset(events) == multiset(events);
  }

  /** Nobody finds the group of a job gone before its supervisor was reaped, or while a process of it runs. */
  lemma GoneIsReaped(w: World, events: seq<Event>)
    requires Leads(INITIAL, events, w) && Fork in events && !GroupExists(w)
    ensures Reap in events && w.processes == 0
    ensures Kill in events ||
      multiset(events)[ProcessEnds] == multiset(events)[StartCommand] + multiset(events)[ProcessForks]
  {
    HistoryTells(w, events);
  }

  // What may still happen

  lemma {:induction false} ProcessesGrow(w: World, n: nat)
    requires w.processes > 0
    ensures Reaches(w, w.(processes := w.processes + n))
  {
    if n == 0 {
      assert Leads(w, [], w);
    } else {
      ProcessesGrow(w, n - 1);
      ReachesNext(w, w.(processes := w.processes + n - 1), ProcessForks);
    }
  }

  /**
   * Any launcher that is not through may die, any supervisor that lives may die, one
   * whose command is over may leave without a report, and a process may fork any
   * number of others, with nothing else changed.
   */
  lemma MayHappen(w: World, n: nat)
    ensures w.launcher !in {Returned, FailedClean, FailedRetained, Dead} ==>
      Reaches(w, w.(launcher := Dead, open := false))
    ensures Alive(w.supervisor) ==> Reaches(w, w.(supervisor := Zombie))
    ensures w.supervisor.Finished? ==> Leads(w, [Exit], w.(supervisor := Zombie))
    ensures w.processes > 0 ==> Reaches(w, w.(processes := w.processes + n))
  {
    assert Leads(w, [], w);
    if w.launcher !in {Returned, FailedClean, FailedRetained, Dead} {
      ReachesNext(w, w, LauncherDies);
    }
    if Alive(w.supervisor) {
      ReachesNext(w, w, SupervisorDies);
    }
    if w.processes > 0 {
      ProcessesGrow(w, n);
    }
  }
}
