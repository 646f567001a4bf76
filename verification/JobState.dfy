/** process_state and terminate, called by others while the job goes on. */
module JobState {
  import opened Wrappers
  import opened JobProtocol
  import opened JobSafety

  datatype State = Running(finished: Option<int>) | Completed(exitCode: int) | Lost

  /** verify_running_process and _owned_live_process_group: `fault` is an extant process they cannot account for. */
  function VerifyRunning(w: World, fault: bool): Result<bool, string> {
    if !Alive(w.supervisor) then Ok(false)
    else if fault then Err("not the recorded background supervisor")
    else Ok(true)
  }

  function OwnedGroup(w: World, fault: bool): Result<bool, string> {
    if !GroupExists(w) then Ok(false)
    else if fault then Err("cannot account for extant background process group")
    else Ok(true)
  }

  /** process_state: each of its looks may find the world further on; `fault` and `later` are faults of the last two. */
  function ProcessState(first: World, second: World, third: World, fault: bool, later: bool): Result<State, string> {
    match first.completion
    case Some(exitCode) =>
      var live :- OwnedGroup(second, fault);
      if live then Ok(Running(Some(exitCode))) else Ok(Completed(exitCode))
    case None =>
      var supervised :- VerifyRunning(second, fault);
      if supervised then Ok(Running(None))
      else
        var live :- OwnedGroup(third, later);
        if live then Ok(Running(None)) else Ok(Lost)
  }

  /** Three looks at a job whose owner record has been published. */
  ghost predicate Looks(first: World, second: World, third: World) {
    Reachable(first) && first.owned && Reaches(first, second) && Reaches(second, third)
  }

  lemma {:induction false} OwnedRun(w: World, events: seq<Event>)
    requires CanRun(w, events) && w.owned
    ensures After(w, events).owned
    decreases |events|
  {
    if events != [] {
      OwnedRun(Apply(w, events[0]), events[1..]);
    }
  }

  lemma LooksOn(w: World, v: World)
    requires Reachable(w) && w.owned && Reaches(w, v)
    ensures Reachable(v) && v.owned
  {
    ReachesOn(INITIAL, w, v);
    var events :| Leads(w, events, v);
    OwnedRun(w, events);
  }

  lemma CompletedTruly(first: World, second: World)
    requires Reachable(first) && first.owned && Reaches(first, second)
    requires first.completion.Some? && !GroupExists(second)
    ensures first.reported == first.completion && Over(second)
  {
    LooksOn(first, second);
    ReachableIsSound(first);
    NoGroupIsOver(second);
  }

  /** However the job got to `w`, its command returned `c`, or could not start and `c` is 127. */
  ghost predicate CommandCode(w: World, c: int) {
    forall events | Leads(INITIAL, events, w) :: OwnCode(events, c)
  }

  lemma CompletionIsCode(w: World)
    requires Reachable(w) && w.completion.Some?
    ensures CommandCode(w, w.completion.value)
  {
    ReachableIsSound(w);
    forall events | Leads(INITIAL, events, w)
      ensures OwnCode(events, w.completion.value)
    {
      CodeTruly(w, events, w.completion.value);
    }
  }

  lemma GoneTruly(first: World, second: World, third: World)
    requires Looks(first, second, third) && !GroupExists(third)
    ensures Over(third)
  {
    LooksOn(first, second);
    LooksOn(second, third);
    NoGroupIsOver(third);
  }

  /** The group of a job with a completion, the supervisor of one without, or the group after its supervisor. */
  predicate SeenRunning(first: World, second: World, third: World) {
    (if first.completion.Some? then GroupExists(second) else Alive(second.supervisor)) || GroupExists(third)
  }

  /** What was seen running, at either look, cannot be accounted for. */
  predicate SeenFault(first: World, second: World, third: World, fault: bool, later: bool) {
    || (fault && GroupExists(second) && (first.completion.Some? || Alive(second.supervisor)))
    || (later && GroupExists(third) && first.completion.None? && !Alive(second.supervisor))
  }

  /**
   * "completed" is said only of a published completion and a group that is gone, with
   * the code the command returned, "lost" only of a group gone, and "running" only of
   * a group that was seen; it raises only on a process it cannot account for.
   */
  lemma SaidTruly(first: World, second: World, third: World, fault: bool, later: bool)
    requires Looks(first, second, third)
    ensures var r := ProcessState(first, second, third, fault, later);
      && (r.Ok? && r.value.Completed? ==>
            && first.completion == Some(r.value.exitCode) && first.reported == first.completion && Over(second)
            && CommandCode(first, r.value.exitCode))
      && (r == Ok(Lost) ==> first.completion.None? && Over(third) && !Alive(second.supervisor))
      && (r.Ok? && r.value.Running? ==> r.value.finished == first.completion && SeenRunning(first, second, third))
      && (r.Err? <==> SeenFault(first, second, third, fault, later))
  {
    if first.completion.Some? {
      CompletionIsCode(first);
    }
    if first.completion.Some? && !GroupExists(second) {
      CompletedTruly(first, second);
    }
    if !GroupExists(third) {
      GoneTruly(first, second, third);
    }
  }

  /**
   * A call that starts after the group is gone: "completed" exactly when a
   * completion was published, with the code the command returned, and "lost" otherwise.
   */
  lemma SettledCall(first: World, second: World, third: World, fault: bool, later: bool)
    requires Looks(first, second, third) && !GroupExists(first) && Settled(first.launcher)
    ensures ProcessState(first, second, third, fault, later) ==
      if first.completion.Some? then Ok(Completed(first.completion.value)) else Ok(Lost)
    ensures first.completion.Some? ==> CommandCode(first, first.completion.value)
    ensures !first.launcher.Dead? ==> first.completion == first.reported == third.reported
  {
    if first.completion.Some? {
      CompletionIsCode(first);
    }
    NoGroupIsOver(first);
    OverStays(first, second);
    OverStays(second, third);
    ReachableIsSound(first);
  }

  // A completed job called lost

  /** A call that begins at `w`, and meets no fault, may answer "lost" when a completion is on disk. */
  ghost predicate MayBeWronglyLost(w: World) {
    exists second, third ::
      Looks(w, second, third) && ProcessState(w, second, third, false, false) == Ok(Lost) && third.completion.Some?
  }

  /** The supervisor may still report: it lives, and the gate is open to it or about to be opened. */
  predicate MayReport(w: World) {
    w.completion.None? && Alive(w.supervisor) && (w.released || w.launcher.Releasing?)
  }

  /** No completion, and nobody left who could publish one. */
  predicate NeverReports(w: World) {
    && w.completion.None?
    && ((!Alive(w.supervisor) && !w.supervisor.NotForked?) || (!w.released && !Early(w.launcher)))
  }

  lemma NeverReportsStep(w: World, e: Event)
    requires Sound(w) && NeverReports(w) && Enabled(w, e)
    ensures NeverReports(Apply(w, e))
  {
  }

  lemma {:induction false} NeverReportsRun(w: World, events: seq<Event>)
    requires Sound(w) && NeverReports(w) && CanRun(w, events)
    ensures After(w, events).completion.None?
    decreases |events|
  {
    if events != [] {
      SoundStep(w, events[0]);
      NeverReportsStep(w, events[0]);
      NeverReportsRun(Apply(w, events[0]), events[1..]);
    }
  }

  /** A supervisor that is through, or whose gate stays shut, never reports: "lost" is then the truth. */
  lemma NeverWronglyLost(w: World)
    requires Reachable(w) && w.owned && !MayReport(w)
    ensures !MayBeWronglyLost(w)
  {
    ReachableIsSound(w);
    if second, third :|
      Looks(w, second, third) && ProcessState(w, second, third, false, false) == Ok(Lost) && third.completion.Some?
    {
      ReachesOn(w, second, third);
      var events :| Leads(w, events, third);
      NeverReportsRun(w, events);
    }
  }

  /** The supervisor goes on to where it may publish, from wherever it is. */
  lemma SupervisorFinishes(w: World) returns (v: World)
    requires Reachable(w) && MayReport(w)
    ensures Reaches(w, v) && v.supervisor.Finished? && v.completion.None?
  {
    ReachableIsSound(w);
    assert Leads(w, [], w);
    v := w;
    if v.launcher.Releasing? {
      ReachesNext(w, v, Release);
      v := Apply(v, Release);
    }
    if v.supervisor.AtGate? {
      ReachesNext(w, v, ReadGate);
      v := Apply(v, ReadGate);
    }
    if v.supervisor.Released? {
      ReachesNext(w, v, StartFails);
      v := Apply(v, StartFails);
    } else if v.supervisor.Waiting? {
      ReachesNext(w, v, CommandReturns(0));
      v := Apply(v, CommandReturns(0));
    }
  }

  lemma {:induction false} ProcessesEnd(w: World) returns (v: World)
    ensures Reaches(w, v) && v == w.(processes := 0)
    decreases w.processes
  {
    assert Leads(w, [], w);
    if w.processes == 0 {
      v := w;
    } else {
      var next := Apply(w, ProcessEnds);
      ReachesNext(w, w, ProcessEnds);
      v := ProcessesEnd(next);
      ReachesOn(w, next, v);
    }
  }

  lemma ReportsAndLeaves(w: World) returns (v: World)
    requires w.supervisor.Finished? && w.completion.None? && w.processes == 0
    ensures Reaches(w, v) && v.completion.Some? && !GroupExists(v)
  {
    assert Leads(w, [], w);
    var w1 := Apply(w, PublishCompletion);
    ReachesNext(w, w, PublishCompletion);
    var w2 := Apply(w1, Exit);
    ReachesNext(w, w1, Exit);
    v := Apply(w2, Reap);
    ReachesNext(w, w2, Reap);
  }

  /**
   * Exactly when a job whose completion is on disk may be called lost: the call
   * began before the completion was published, by a supervisor that still lived
   * and could publish it.
   */
  lemma WronglyLostExactly(w: World)
    requires Reachable(w) && w.owned
    ensures MayBeWronglyLost(w) <==> MayReport(w)
    ensures w.launcher.Returned? ==> (MayReport(w) <==> w.completion.None? && Alive(w.supervisor))
  {
    ReachableIsSound(w);
    if MayReport(w) {
      var v1 := SupervisorFinishes(w);
      var v2 := ProcessesEnd(v1);
      var v3 := ReportsAndLeaves(v2);
      ReachesOn(w, v1, v2);
      ReachesOn(w, v2, v3);
      assert Leads(v3, [], v3);
      assert Looks(w, v3, v3);
    } else {
      NeverWronglyLost(w);
    }
  }

  lemma Then(u: World, w: World, e: Event, v: World)
    requires Reaches(u, w) && Enabled(w, e) && v == Apply(w, e)
    ensures Reaches(u, v)
  {
    ReachesNext(u, w, e);
  }

  lemma LaunchReturns() returns (w: World)
    ensures Reachable(w)
    ensures w == World(Returned, AtGate, 0, true, false, true, true, None, true, false, true, None)
  {
    assert Leads(INITIAL, [], INITIAL);
    var w1 := INITIAL.(launcher := Forking, log := true);
    Then(INITIAL, INITIAL, OpenLog, w1);
    var w2 := w1.(launcher := Inspecting, supervisor := AtGate);
    Then(INITIAL, w1, Fork, w2);
    var w3 := w2.(launcher := PublishingOwner);
    Then(INITIAL, w2, Inspect, w3);
    var w4 := w3.(launcher := Releasing, owner := true, owned := true);
    Then(INITIAL, w3, PublishOwner, w4);
    var w5 := w4.(launcher := Returning, gate := true, released := true);
    Then(INITIAL, w4, Release, w5);
    w := w5.(launcher := Returned, open := false);
    Then(INITIAL, w5, Return, w);
  }

  /** It does happen: every job whose launch has just returned may yet be called lost and have completed. */
  lemma LostByRace() returns (w: World)
    ensures Reachable(w) && w.owned && w.launcher.Returned? && MayBeWronglyLost(w)
  {
    w := LaunchReturns();
    WronglyLostExactly(w);
  }

  // A job that is lost

  /** The job may come to where a call, then begun, truly answers "lost". */
  ghost predicate MayBeLost(w: World) {
    exists v :: Reaches(w, v) && ProcessState(v, v, v, false, false) == Ok(Lost)
  }

  lemma CompletionStep(w: World, e: Event)
    requires Settled(w.launcher) && w.completion.Some? && Enabled(w, e)
    ensures Settled(Apply(w, e).launcher) && Apply(w, e).completion == w.completion
  {
    match e
    case PublishCompletion =>
    case RemoveCompletion =>
    case _ =>
  }

  lemma {:induction false} CompletionStays(w: World, events: seq<Event>)
    requires Settled(w.launcher) && w.completion.Some? && CanRun(w, events)
    ensures After(w, events).completion == w.completion
    decreases |events|
  {
    if events != [] {
      CompletionStep(w, events[0]);
      CompletionStays(Apply(w, events[0]), events[1..]);
    }
  }

  lemma SupervisorGone(w: World) returns (v: World)
    requires !w.supervisor.NotForked?
    ensures Reaches(w, v) && v == w.(supervisor := Reaped)
  {
    assert Leads(w, [], w);
    v := w;
    if Alive(v.supervisor) {
      v := w.(supervisor := Zombie);
      Then(w, w, SupervisorDies, v);
    }
    if v.supervisor.Zombie? {
      Then(w, v, Reap, w.(supervisor := Reaped));
      v := w.(supervisor := Reaped);
    }
  }

  /** Whatever job has no completion on disk may be lost; one whose completion nobody removes any more never is. */
  lemma LostExactly(w: World)
    requires Reachable(w) && w.owned
    ensures w.completion.None? ==> MayBeLost(w)
    ensures w.completion.Some? && Settled(w.launcher) ==> !MayBeLost(w)
  {
    if w.completion.None? {
      ReachableIsSound(w);
      var u := SupervisorGone(w);
      var v := ProcessesEnd(u);
      ReachesOn(w, u, v);
    } else if v :| Reaches(w, v) && ProcessState(v, v, v, false, false) == Ok(Lost) {
      if Settled(w.launcher) {
        var events :| Leads(w, events, v);
        CompletionStays(w, events);
      }
    }
  }

  // terminate

  /** The world at each look terminate takes, in order. */
  ghost predicate Watched(trace: seq<World>) {
    && trace != [] && Reachable(trace[0]) && trace[0].owned
    && forall i | 0 < i < |trace| :: Reaches(trace[i - 1], trace[i])
  }

  lemma {:induction false} WatchedAt(trace: seq<World>, i: nat)
    requires Watched(trace) && i < |trace|
    ensures Reachable(trace[i]) && trace[i].owned
  {
    if i > 0 {
      WatchedAt(trace, i - 1);
      LooksOn(trace[i - 1], trace[i]);
    }
  }

  lemma {:induction false} GoneFrom(trace: seq<World>, i: nat, j: nat)
    requires Watched(trace) && i <= j < |trace| && !GroupExists(trace[i])
    ensures Over(trace[j])
  {
    if i == j {
      WatchedAt(trace, i);
      NoGroupIsOver(trace[i]);
    } else {
      GoneFrom(trace, i, j - 1);
      OverStays(trace[j - 1], trace[j]);
    }
  }

  /** Looks `from` to `to`, until the group is gone, or one of them faults. */
  method Poll(trace: seq<World>, faults: set<nat>, from: nat, to: nat) returns (r: Result<bool, string>)
    requires Watched(trace) && from <= to <= |trace|
    ensures r == Ok(true) ==> Over(trace[|trace| - 1])
    ensures r == Ok(false) ==> forall i | from <= i < to :: GroupExists(trace[i])
    ensures r.Err? ==> exists i :: i in faults && from <= i < to && GroupExists(trace[i])
  {
    for i := from to to
      invariant forall k | from <= k < i :: GroupExists(trace[k])
    {
      var live := OwnedGroup(trace[i], i in faults);
      if live.Err? {
        assert i in faults && GroupExists(trace[i]);
        return Err(live.error);
      }
      if !live.value {
        GoneFrom(trace, i, |trace| - 1);
        return Ok(true);
      }
    }
    return Ok(false);
  }

  /** What terminate does to a group that was there: a signal, a grace period, and a kill, each followed by looks. */
  method Stop(trace: seq<World>, faults: set<nat>, grace: nat) returns (r: Result<(), string>)
    requires Watched(trace) && 5 + grace <= |trace|
    ensures r.Ok? ==> Over(trace[|trace| - 1])
    ensures r.Err? ==> Faulted(trace, faults) || forall i | 4 <= i < |trace| :: GroupExists(trace[i])
  {
    if !GroupExists(trace[3]) {
      GoneFrom(trace, 3, |trace| - 1);
      return Ok(());
    }
    var gone :- Poll(trace, faults, 4, 4 + grace);
    if gone {
      return Ok(());
    }
    if !GroupExists(trace[4 + grace]) {
      GoneFrom(trace, 4 + grace, |trace| - 1);
      return Ok(());
    }
    gone :- Poll(trace, faults, 5 + grace, |trace|);
    if gone {
      return Ok(());
    }
    return Err("background process group did not stop");
  }

  /**
   * terminate: it returns only once the job had completed or the group was seen
   * gone, and so with the group gone for good.  It raises only when the job was
   * lost before, when a process cannot be accounted for, or when the group still
   * existed at every look to the end.
   */
  method Terminate(trace: seq<World>, faults: set<nat>, grace: nat) returns (r: Result<(), string>)
    requires Watched(trace) && 5 + grace <= |trace|
    ensures r.Ok? ==> Over(trace[|trace| - 1])
    ensures r.Err? ==>
      Over(trace[2]) || Faulted(trace, faults) || forall i | 4 <= i < |trace| :: GroupExists(trace[i])
  {
    SaidTruly(trace[0], trace[1], trace[2], 1 in faults, 2 in faults);
    var state := ProcessState(trace[0], trace[1], trace[2], 1 in faults, 2 in faults);
    if state.Err? {
      FaultSeen(trace, faults);
      return Err(state.error);
    }
    if state.value.Completed? {
      GoneFrom(trace, 1, |trace| - 1);
      return Ok(());
    }
    if !state.value.Running? {
      return Err("background process disappeared without completion");
    }
    r := Stop(trace, faults, grace);
  }

  lemma FaultSeen(trace: seq<World>, faults: set<nat>)
    requires |trace| > 2 && ProcessState(trace[0], trace[1], trace[2], 1 in faults, 2 in faults).Err?
    ensures Faulted(trace, faults)
  {
    assert (1 in faults && GroupExists(trace[1])) || (2 in faults && GroupExists(trace[2]));
  }

  /** At some look a process was there that could not be accounted for. */
  ghost predicate Faulted(trace: seq<World>, faults: set<nat>) {
    exists i :: i in faults && i < |trace| && GroupExists(trace[i])
  }
}
