/** launch, as one of the runs of the protocol. */
module JobLaunch {
  import opened JobProtocol
  import opened JobSafety

  datatype Launched = Started | FailedCleanly | Retained

  class System {
    var world: World

    constructor ()
      ensures world == INITIAL && Reachable(world)
    {
      world := INITIAL;
      new;
      assert Leads(INITIAL, [], INITIAL);
    }

    /** One step of the launcher. */
    method Do(e: Event)
      requires Reachable(world) && Enabled(world, e)
      modifies this
      ensures Reachable(world) && world == Apply(old(world), e)
    {
      ReachesNext(INITIAL, world, e);
      world := Apply(world, e);
    }

    /** What others do between two steps of the launcher. */
    method Others(events: seq<Event>)
      requires Reachable(world)
      modifies this
      ensures Reachable(world) && world.launcher == old(world.launcher) && world.owner == old(world.owner)
    {
      for i := 0 to |events|
        invariant Reachable(world) && world.launcher == old(world.launcher) && world.owner == old(world.owner)
      {
        if ByOthers(events[i]) && Enabled(world, events[i]) {
          Do(events[i]);
        }
      }
    }

    /** _stop_failed_launch: kill the group, and look until it is gone or the time is up. */
    method StopFailedLaunch(others: seq<seq<Event>>) returns (proven: bool)
      requires Reachable(world) && world.launcher.Killing?
      modifies this
      ensures Reachable(world) && (if proven then world.launcher.RemovingLog? else world.launcher.FailedRetained?)
      ensures world.owner == old(world.owner)
    {
      Do(Kill);
      for i := 0 to |others|
        invariant Reachable(world) && world.launcher.Watching? && world.owner == old(world.owner)
      {
        Others(others[i]);
        if !GroupExists(world) {
          Do(ProveEmpty);
          return true;
        }
      }
      Do(GiveUp);
      return false;
    }

    /** The handler's removals; the owner record goes when it is known, or found, to be this launch's. */
    method RemoveFiles(published: bool, owned: bool)
      requires Reachable(world) && world.launcher.RemovingLog?
      requires world.owner ==> owned
      modifies this
      ensures Reachable(world) && world.launcher.FailedClean?
    {
      Do(RemoveLog);
      Do(RemoveCompletion);
      var ours := published || (owned && world.owner);
      ReachesNext(INITIAL, world, RemoveOwner);
      world := world.(launcher := FailedClean, owner := if ours then false else world.owner, open := false);
    }

    /**
     * launch: `others` is what the rest of the system does after each of its
     * steps, and `faults` the steps that raise, before or after their effect.  It
     * always ends in a world the protocol reaches: the job is owned and released,
     * or the group is gone and so is every file, or every file is kept.
     */
    method Launch(others: seq<seq<Event>>, waiting: seq<seq<Event>>, faults: set<nat>) returns (r: Launched)
      requires world == INITIAL && Reachable(world) && |others| >= 6
      modifies this
      ensures Reachable(world)
      ensures match r
        case Started => world.launcher.Returned? && world.owner && world.log && world.released
        case FailedCleanly =>
          world.launcher.FailedClean? && Over(world) && !world.owner && !world.log && world.completion.None?
        case Retained =>
          && world.launcher.FailedRetained? && world.log
          && world.owner == world.owned && world.completion == world.reported
    {
      Do(OpenLog);
      Others(others[0]);
      if 0 in faults {
        Do(ForkFails);
        RemoveFiles(false, false);
        AllOrNothing(world);
        return FailedCleanly;
      }
      Do(Fork);
      Others(others[1]);
      var owned, published, raised := false, false, 1 in faults;
      if !raised {
        Do(Inspect);
        owned := true;
        Others(others[2]);
        raised := 2 in faults;
      }
      if !raised {
        Do(PublishOwner);
        Others(others[3]);
        raised := 3 in faults;
      }
      if !raised {
        published := true;
        Do(Release);
        Others(others[4]);
        raised := 4 in faults;
      }
      if !raised {
        Do(Return);
        Others(others[5]);
        AllOrNothing(world);
        return Started;
      }
      r := Fail(waiting, published, owned);
    }

    method Fail(waiting: seq<seq<Event>>, published: bool, owned: bool) returns (r: Launched)
      requires Reachable(world) && world.launcher in {Inspecting, PublishingOwner, Releasing, Returning}
      requires world.owner ==> owned
      modifies this
      ensures Reachable(world)
      ensures match r
        case Started => false
        case FailedCleanly =>
          world.launcher.FailedClean? && Over(world) && !world.owner && !world.log && world.completion.None?
        case Retained =>
          && world.launcher.FailedRetained? && world.log
          && world.owner == world.owned && world.completion == world.reported
    {
      Do(Raise);
      var proven := StopFailedLaunch(waiting);
      if !proven {
        AllOrNothing(world);
        ReachableIsSound(world);
        return Retained;
      }
      RemoveFiles(published, owned);
      AllOrNothing(world);
      return FailedCleanly;
    }
  }
}
