/**
 * The removal of a cycle's results: what is removed is a plan that is built anew,
 * and every such plan can be published and finished.
 */
module CleanupCycle {
  import opened Wrappers
  import opened FileTree
  import opened CleanupNames
  import opened CleanupRecords
  import opened CleanupTransaction
  import opened CleanupHost
  import opened CleanupFinisher
  import opened CleanupReview
  import opened CleanupPublication

  // Plans that are built

  /** `p` is an entry of directory `d`. */
  predicate EntryIn(p: Path, d: Path) {
    |p| == |d| + 1 && d <= p
  }

  /** Where the targets of each kind of result lie. */
  predicate ResultTarget(x: Target) {
    match x.kind
    case UpstreamResult => EntryIn(x.path, ["upstream-tests", "logs"])
    case LiveResult => EntryIn(x.path, ["jobs", "live"])
    case LiveResultTree => EntryIn(x.path, ["live-results"])
    case DebResult => EntryIn(x.path, ["deb-packages", "results"]) || EntryIn(x.path, ["deb-packages", "outputs"])
    case _ => false
  }

  /** What `_build_cleanup_plan_unlocked` can return: results of one cycle, each once, sorted. */
  predicate Built(plan: Plan) {
    && IsCycleName(plan.cycle) && plan.targets != []
    && (forall x | x in plan.targets :: ResultTarget(x))
    && DistinctPaths(plan.targets) && Canonical(plan.targets)
  }

  /** What a target of a cycle is when it is removed: a file of this user's, or a directory closed to all others. */
  ghost predicate InPlace(t: Disk, x: Target) {
    && x.path in t && (forall a | a < x.path :: PrivateAt(t, a))
    && Fingerprint(x.kind, Sub(t, x.path)) == Some(x.fingerprint)
    && if x.kind == LiveResultTree
       then PrivateAt(t, x.path) && t[x.path].mode == 0x1c0 && t[x.path].inode > 0
       else t[x.path].kind.Regular? && t[x.path].owned
  }

  lemma InPlaceExactly(t: Disk, x: Target)
    requires ResultTarget(x)
    ensures InPlace(t, x) <==> TargetStateOk(t, x, false) && x.path in t && KindOk(x.kind, t[x.path])
  {
    RootOf(t, x.path);
    assert x.path + [] == x.path;
    if InPlace(t, x) {
      forall k | 0 <= k < |x.path|
        ensures PrivateAt(t, x.path[..k])
      {
        assert x.path[..k] < x.path;
      }
    }
    if ParentsOk(t, x.path) {
      forall a | a < x.path
        ensures PrivateAt(t, a)
      {
        assert a == x.path[..|a|];
      }
    }
  }

  /** The disk a cycle's plan is published on: every target in its place. */
  lemma PlannedExactly(t: Disk, plan: Plan)
    requires Built(plan)
    ensures Planned(t, plan) <==>
      WellFormed(t) && Loaded(t) == NoneFound && forall x | x in plan.targets :: InPlace(t, x) && IsOrdinary(x.path)
  {
    forall x | x in plan.targets
      ensures InPlace(t, x) <==> TargetStateOk(t, x, false) && x.path in t && KindOk(x.kind, t[x.path])
      ensures IsOrdinary(x.path) <==> NormalizedPath(x.path)
    {
      assert ResultTarget(x);
      InPlaceExactly(t, x);
    }
  }

  /** No result lies below another, and none is the transaction root. */
  lemma BuiltIsSeparate(plan: Plan)
    requires Built(plan)
    ensures Separate(plan)
  {
    forall i, j | 0 <= i < |plan.targets| && 0 <= j < |plan.targets| && i != j
      ensures !(plan.targets[i].path <= plan.targets[j].path)
    {
      if plan.targets[i].path <= plan.targets[j].path {
        assert plan.targets[i] in plan.targets && plan.targets[j] in plan.targets;
        ResultsApart(plan.targets[i], plan.targets[j]);
        assert false;
      }
    }
    forall i | 0 <= i < |plan.targets|
      ensures plan.targets[i].path != TRANSACTION_ROOT
    {
      assert plan.targets[i] in plan.targets;
    }
  }

  lemma ResultsApart(x: Target, y: Target)
    requires ResultTarget(x) && ResultTarget(y) && x.path <= y.path
    ensures x.path == y.path
  {
    assert x.path[0] == y.path[0];
    assert |x.path| == if x.kind == LiveResultTree then 2 else 3;
    assert x.kind == LiveResultTree <==> x.path[0] == "live-results";
    assert y.kind == LiveResultTree <==> y.path[0] == "live-results";
  }

  /** require_cycle_plan: an artifacts cleanup is not for `remove_cleanup_plan`. */
  predicate CyclePlan(plan: Plan) {
    && !("artifacts-" <= plan.cycle)
    && forall x | x in plan.targets :: x.kind != ArtifactFile && x.kind != ArtifactTree
  }

  /** The removal, planned on `t`, needs `left` more changes; with nothing published yet, it is still the plan built. */
  ghost predicate CutOff(t: Disk, plan: Plan, u: Disk, left: int, current: Option<Plan>) {
    Planned(t, plan) && Left(t, plan, u, left) && (Loaded(u).NoneFound? ==> current == Some(plan))
  }

  /** What a call does when nothing is pending. */
  method RemoveNew(host: Host, plan: Plan, current: Option<Plan>, ghost t: Disk, ghost left: int) returns (r: Outcome)
    requires current.Some? ==> Built(current.value)
    modifies host
    ensures Planned(old(host.disk), plan) ==>
      && (old(host.budget) >= Need(old(host.disk), plan) ==> (r.Pass? <==> current == Some(plan)))
      && (r.Fail? <==> current != Some(plan))
    ensures r.Fail? && Planned(old(host.disk), plan) ==> host.disk == old(host.disk)
    ensures current == Some(plan) && Planned(t, plan) && Unpublished(t, old(host.disk)) ==>
      left == Need(old(host.disk), plan) ==> TakenOn(t, plan, old(host.budget), left, host.disk, r)
    ensures AlteredSince(t, old(host.disk), plan) ==>
      r.Fail? && host.disk == old(host.disk)
  {
    ghost var v := host.disk;
    ghost var again := current == Some(plan) && Planned(t, plan) && Unpublished(t, v);
    if current == Some(plan) {
      BuiltIsSeparate(plan);
    }
    if again {
      StillPlanned(t, v, plan);
    }
    if AlteredSince(t, v, plan) {
      SomeAlteredRefused(t, v, plan, false);
    }
    if !PlanStateOk(host.disk, plan, false) {
      return Fail("cycle cleanup target changed after planning");
    }
    if current != Some(plan) {
      return Fail("cleanup targets changed after planning");
    }
    r := PublishAndFinish(host, plan);
    if again && left == Need(v, plan) {
      SeenFrom(t, v, plan, old(host.budget), left, host.disk, r);
    }
  }

  /** What a call does when a removal is pending. */
  method RemovePending(host: Host, tx: Transaction, plan: Plan, ghost t: Disk, ghost left: int) returns (r: Outcome)
    requires Loaded(host.disk) == Pending(tx)
    modifies host
    ensures tx.plan != plan || AlteredSince(t, old(host.disk), plan) ==> r.Fail? && host.disk == old(host.disk)
    ensures tx.plan == plan && Left(t, plan, old(host.disk), left) ==>
      TakenOn(t, plan, old(host.budget), left, host.disk, r)
  {
    if tx.plan != plan {
      return Fail("CONFIRM does not identify the pending cycle cleanup transaction");
    }
    r := FinishPending(host, tx, t, left);
  }

  /**
   * remove_cleanup_plan; `current` is the plan built anew under the locks, unless
   * that is refused.  On a planned disk, with a budget for it, a cycle's plan is
   * removed exactly if it is still the plan that is built; refused, it leaves the
   * disk alone.  Wherever the removal of a plan that was once built was cut off, the
   * next call takes it on; only where nothing is published yet is the plan built anew.
   * Where a target is not what it was when the plan was reviewed on `t`, nothing changes.
   */
  method Remove(host: Host, plan: Plan, current: Option<Plan>, ghost t: Disk, ghost left: int) returns (r: Outcome)
    requires current.Some? ==> Built(current.value)
    modifies host
    ensures Planned(old(host.disk), plan) ==>
      && (old(host.budget) >= Need(old(host.disk), plan) ==> (r.Pass? <==> CyclePlan(plan) && current == Some(plan)))
      && (r.Fail? <==> !(CyclePlan(plan) && current == Some(plan)))
      && (r.Fail? ==> host.disk == old(host.disk))
    ensures CyclePlan(plan) && CutOff(t, plan, old(host.disk), left, current) ==>
      TakenOn(t, plan, old(host.budget), left, host.disk, r)
    ensures AlteredSince(t, old(host.disk), plan) ==>
      r.Fail? && host.disk == old(host.disk)
  {
    if !CyclePlan(plan) {
      return Fail("this is a structural artifacts cleanup");
    }
    LeftLoads(t, plan, host.disk, left);
    var pending := Load(host);
    if pending.Pending? {
      r := RemovePending(host, pending.transaction, plan, t, left);
      return;
    }
    if pending.Rejected? {
      return Fail("cleanup transaction is invalid");
    }
    r := RemoveNew(host, plan, current, t, left);
  }
}
