/** The whole cleanup: publish a reviewed plan, finish it, and finish it again after any crash. */
module Cleanup {
  import opened Wrappers
  import opened FileTree
  import opened CleanupNames
  import opened CleanupRecords
  import opened CleanupTransaction
  import opened CleanupWork
  import opened CleanupRuns
  import opened CleanupHost
  import opened CleanupFinisher
  import opened CleanupRemoval
  import opened CleanupReview

  /** The target or its staging is there, so finishing it counts as a removal. */
  predicate Removable(tx: Transaction, t: Disk, i: nat)
    requires i < |tx.plan.targets|
  {
    tx.plan.targets[i].path in t || StagingPath(tx, i) in t
  }

  /** Every ancestor of target `i` is in `t`, apart from paths inside the transaction root. */
  ghost predicate AncestorsIn(tx: Transaction, t: Disk, i: nat)
    requires i < |tx.plan.targets|
  {
    forall a | a < tx.plan.targets[i].path && !(TRANSACTION_ROOT <= a) :: Get(t, a).Some?
  }

  /** One target of the finisher's loop. */
  method FinishTarget(host: Host, tx: Transaction, i: nat, ghost b: Disk) returns (r: Outcome, removed: bool)
    requires i < |tx.plan.targets|
    modifies host
    ensures Confined(tx, old(host.disk), host.disk, i)
    ensures CreatesOnlyBookkeeping(tx, old(host.disk), host.disk, i)
    ensures host.budget <= old(host.budget) && (r.Crash? ==> host.budget == 0)
    ensures r.Pass? ==> tx.plan.targets[i].path !in host.disk && AncestorsIn(tx, old(host.disk), i)
    ensures Foreign(b, tx, old(host.disk), i) ==> r.Fail? && host.disk == old(host.disk)
    ensures Underway(b, tx, old(host.disk)) ==>
      && !r.Fail?
      && Continues(b, tx, old(host.disk), host.disk, old(host.budget) - host.budget)
      && (r.Pass? ==> ViewOf(tx, host.disk, i) == GONE && (removed <==> Removable(tx, old(host.disk), i)))
  {
    var path, staging := tx.plan.targets[i].path, StagingPath(tx, i);
    ghost var live := Underway(b, tx, host.disk);
    RootOf(host.disk, path);
    removed := staging in host.disk;
    r := ResumeStaged(host, tx, i, b);
    if !r.Pass? {
      return;
    }
    if live {
      TargetAccepted(b, tx, host.disk, i);
      ResumedView(b, tx, old(host.disk), host.disk, i);
    }
    if !ParentsOk(host.disk, path) {
      return Fail("cycle cleanup target parent is not a real owned directory"), removed;
    }
    AncestorsKept(tx, old(host.disk), host.disk, i);
    if path !in host.disk {
      return;
    }
    r := FinishPresent(host, tx, i, b);
    removed := true;
  }

  /** A target that is there is checked against the plan, removed, and looked for once more. */
  method FinishPresent(host: Host, tx: Transaction, i: nat, ghost b: Disk) returns (r: Outcome)
    requires i < |tx.plan.targets| && tx.plan.targets[i].path in host.disk
    modifies host
    ensures Confined(tx, old(host.disk), host.disk, i)
    ensures CreatesOnlyBookkeeping(tx, old(host.disk), host.disk, i)
    ensures host.budget <= old(host.budget) && (r.Crash? ==> host.budget == 0)
    ensures r.Pass? ==> tx.plan.targets[i].path !in host.disk
    ensures OtherHere(b, tx, old(host.disk), i) ==> r.Fail? && host.disk == old(host.disk)
    ensures Underway(b, tx, old(host.disk)) ==>
      && !r.Fail?
      && Continues(b, tx, old(host.disk), host.disk, old(host.budget) - host.budget)
      && (r.Pass? ==> ViewOf(tx, host.disk, i) == GONE)
  {
    if Underway(b, tx, host.disk) {
      TargetAccepted(b, tx, host.disk, i);
    }
    if !TargetOk(host.disk, tx.plan.targets[i]) {
      return Fail("cycle cleanup target changed after planning");
    }
    r := RemovePresent(host, tx, i, b);
    if !r.Pass? {
      return;
    }
    RootOf(host.disk, tx.plan.targets[i].path);
    RootOf(host.disk, StagingPath(tx, i));
    if tx.plan.targets[i].path in host.disk {
      return Fail("cycle cleanup did not remove its exact target");
    }
    if StagingPath(tx, i) in host.disk {
      return Fail("cycle cleanup directory staging was not removed");
    }
  }

  lemma ResumedView(b: Disk, tx: Transaction, t: Disk, u: Disk, i: nat)
    requires Underway(b, tx, t) && Underway(b, tx, u) && i < |tx.plan.targets|
    requires StagingPath(tx, i) !in u && PhasePath(tx, i) !in u
    requires ViewOf(tx, u, i).here == ViewOf(tx, t, i).here
    ensures tx.plan.targets[i].path in u <==> tx.plan.targets[i].path in t
    ensures tx.plan.targets[i].path !in u ==> ViewOf(tx, u, i) == GONE
  {
    ViewFacts(b, tx, t, i);
    ViewFacts(b, tx, u, i);
  }

  lemma NotBookkeeping(tx: Transaction, i: nat, a: Path)
    requires !(TRANSACTION_ROOT <= a)
    ensures !(StagingPath(tx, i) <= a) && !(PhasePath(tx, i) <= a) && !(MarkerPath(tx) <= a)
  {
  }

  lemma AncestorsKept(tx: Transaction, t: Disk, u: Disk, i: nat)
    requires i < |tx.plan.targets|
    requires CreatesOnlyBookkeeping(tx, t, u, i) && ParentsOk(u, tx.plan.targets[i].path)
    ensures AncestorsIn(tx, t, i)
  {
    var p := tx.plan.targets[i].path;
    forall a | a < p && !(TRANSACTION_ROOT <= a)
      ensures Get(t, a).Some?
    {
      assert a == p[..|a|] && Get(u, a).Some?;
      NotBookkeeping(tx, i, a);
    }
  }

  // The loop over the targets

  ghost predicate NothingElseChanged(tx: Transaction, t: Disk, u: Disk) {
    forall q | Outside(tx, q) :: Get(u, q) == Get(t, q)
  }

  /** None of the first `n` targets is there. */
  ghost predicate TargetsAbsent(tx: Transaction, t: Disk, n: nat)
    requires n <= |tx.plan.targets|
  {
    forall k | 0 <= k < n :: Get(t, tx.plan.targets[k].path).None?
  }

  /** None of the first `n` targets lies below an earlier one. */
  predicate NoneNested(plan: Plan, n: nat)
    requires n <= |plan.targets|
  {
    forall k, j | 0 <= k < j < n :: !(plan.targets[k].path < plan.targets[j].path)
  }

  /** Once a target is removed, a later one below it has lost an ancestor. */
  lemma NestingFound(tx: Transaction, t: Disk, u: Disk, i: nat)
    requires ClearOfRoot(tx.plan) && i < |tx.plan.targets|
    requires TargetsAbsent(tx, t, i) && NoneNested(tx.plan, i)
    requires CreatesOnlyBookkeeping(tx, t, u, i) && AncestorsIn(tx, t, i)
    requires tx.plan.targets[i].path !in u
    ensures TargetsAbsent(tx, u, i + 1) && NoneNested(tx.plan, i + 1)
  {
    forall k | 0 <= k < i
      ensures Get(u, tx.plan.targets[k].path).None?
      ensures !(tx.plan.targets[k].path < tx.plan.targets[i].path)
    {
      NotBookkeeping(tx, i, tx.plan.targets[k].path);
      assert Get(t, tx.plan.targets[k].path).None?;
    }
  }

  function RemovableBelow(tx: Transaction, t: Disk, n: nat): nat
    requires n <= |tx.plan.targets|
  {
    if n == 0 then 0 else RemovableBelow(tx, t, n - 1) + if Removable(tx, t, n - 1) then 1 else 0
  }

  /** In a run that began at `s`, the first `n` targets are gone and the others are as they were. */
  ghost predicate Cleared(b: Disk, tx: Transaction, s: Disk, t: Disk, n: nat, spent: int, removed: nat)
    requires n <= |tx.plan.targets|
  {
    && Underway(b, tx, s)
    && Continues(b, tx, s, t, spent)
    && AllGone(tx, t, n)
    && (forall j | n <= j < |tx.plan.targets| :: ViewOf(tx, t, j) == ViewOf(tx, s, j))
    && removed == RemovableBelow(tx, s, n)
  }

  lemma ClearedNext(b: Disk, tx: Transaction, s: Disk, t: Disk, u: Disk, n: nat,
                    before: int, spent: int, removed: nat, one: bool)
    requires n < |tx.plan.targets| && Cleared(b, tx, s, t, n, before, removed)
    requires Confined(tx, t, u, n) && Continues(b, tx, t, u, spent)
    requires ViewOf(tx, u, n) == GONE && (one <==> Removable(tx, t, n))
    ensures Cleared(b, tx, s, u, n + 1, before + spent, removed + if one then 1 else 0)
  {
    ViewsNext(tx, s, t, u, n);
    SameViewRemovable(b, tx, s, t, n);
    ContinuesOn(b, tx, s, t, u, before, spent);
  }

  lemma ContinuesOn(b: Disk, tx: Transaction, s: Disk, t: Disk, u: Disk, before: int, spent: int)
    requires Continues(b, tx, s, t, before) && Continues(b, tx, t, u, spent)
    ensures Continues(b, tx, s, u, before + spent)
  {
  }

  lemma ViewsNext(tx: Transaction, s: Disk, t: Disk, u: Disk, n: nat)
    requires IsCycleName(tx.plan.cycle) && PrefixFree(tx.plan) && ClearOfRoot(tx.plan)
    requires n < |tx.plan.targets| && Confined(tx, t, u, n)
    requires AllGone(tx, t, n) && ViewOf(tx, u, n) == GONE
    requires forall j | n <= j < |tx.plan.targets| :: ViewOf(tx, t, j) == ViewOf(tx, s, j)
    ensures AllGone(tx, u, n + 1)
    ensures forall j | n < j < |tx.plan.targets| :: ViewOf(tx, u, j) == ViewOf(tx, s, j)
  {
    OtherViewsKept(tx, t, u, n);
  }

  method FinishTargets(host: Host, tx: Transaction, ghost b: Disk) returns (r: Outcome, removed: nat)
    modifies host
    ensures NothingElseChanged(tx, old(host.disk), host.disk)
    ensures host.budget <= old(host.budget) && (r.Crash? ==> host.budget == 0)
    ensures r.Pass? && ClearOfRoot(tx.plan) ==> NoneNested(tx.plan, |tx.plan.targets|)
    ensures Separated(tx) ==> ForeignKept(b, tx, old(host.disk), host.disk, r)
    ensures Underway(b, tx, old(host.disk)) ==>
      && !r.Fail?
      && Continues(b, tx, old(host.disk), host.disk, old(host.budget) - host.budget)
      && (r.Pass? ==>
            && AllGone(tx, host.disk, |tx.plan.targets|)
            && removed == RemovableBelow(tx, old(host.disk), |tx.plan.targets|))
  {
    removed := 0;
    ghost var live := Underway(b, tx, host.disk);
    ghost var start, full := host.disk, host.budget;
    for i := 0 to |tx.plan.targets|
      invariant NothingElseChanged(tx, start, host.disk)
      invariant host.budget <= full
      invariant ClearOfRoot(tx.plan) ==> TargetsAbsent(tx, host.disk, i) && NoneNested(tx.plan, i)
      invariant Separated(tx) ==> LaterKept(tx, start, host.disk, i) && NoneForeign(b, tx, start, i)
      invariant live ==> Cleared(b, tx, start, host.disk, i, full - host.budget, removed)
    {
      ghost var before, left := host.disk, host.budget;
      var one;
      r, one := FinishTarget(host, tx, i, b);
      ConfinedElsewhere(tx, start, before, host.disk, i);
      if Separated(tx) {
        ForeignStops(b, tx, start, before, host.disk, i, r);
        LaterKeptNext(tx, start, before, host.disk, i);
      }
      if !r.Pass? {
        return;
      }
      if ClearOfRoot(tx.plan) {
        NestingFound(tx, before, host.disk, i);
      }
      if live {
        ClearedNext(b, tx, start, before, host.disk, i, full - left, left - host.budget, removed, one);
      }
      removed := removed + if one then 1 else 0;
    }
    r := Pass;
  }

  // Foreign directories

  /** No two targets share a path, and none has anything to do with the transaction root. */
  predicate Separated(tx: Transaction) {
    IsCycleName(tx.plan.cycle) && PrefixFree(tx.plan) && ClearOfRoot(tx.plan)
  }

  ghost predicate LaterKept(tx: Transaction, s: Disk, t: Disk, n: nat) {
    forall j | n <= j < |tx.plan.targets| :: ViewOf(tx, t, j) == ViewOf(tx, s, j)
  }

  lemma LaterKeptNext(tx: Transaction, s: Disk, t: Disk, u: Disk, n: nat)
    requires Separated(tx) && n < |tx.plan.targets| && LaterKept(tx, s, t, n) && Confined(tx, t, u, n)
    ensures LaterKept(tx, s, u, n + 1)
  {
    OtherViewsKept(tx, t, u, n);
  }

  ghost predicate NoneForeign(b: Disk, tx: Transaction, s: Disk, n: nat) {
    forall j | 0 <= j < n :: !Foreign(b, tx, s, j)
  }

  /** Where a foreign directory was, everything is as it was. */
  ghost predicate ForeignKept(b: Disk, tx: Transaction, s: Disk, u: Disk, r: Outcome) {
    forall j | 0 <= j < |tx.plan.targets| && Foreign(b, tx, s, j) ::
      !r.Pass? && ViewOf(tx, u, j) == ViewOf(tx, s, j)
  }

  lemma ForeignStops(b: Disk, tx: Transaction, s: Disk, t: Disk, u: Disk, n: nat, r: Outcome)
    requires Separated(tx) && n < |tx.plan.targets| && LaterKept(tx, s, t, n) && NoneForeign(b, tx, s, n)
    requires Confined(tx, t, u, n) && (Foreign(b, tx, t, n) ==> r.Fail? && u == t)
    ensures !r.Pass? ==> ForeignKept(b, tx, s, u, r)
    ensures r.Pass? ==> NoneForeign(b, tx, s, n + 1)
  {
    LaterKeptNext(tx, s, t, u, n);
    ForeignByView(b, tx, s, t, n);
  }

  lemma ConfinedElsewhere(tx: Transaction, s: Disk, t: Disk, u: Disk, i: nat)
    requires i < |tx.plan.targets|
    requires NothingElseChanged(tx, s, t) && Confined(tx, t, u, i)
    ensures NothingElseChanged(tx, s, u)
  {
    forall q | Outside(tx, q)
      ensures Get(u, q) == Get(s, q)
    {
      assert !Touches(tx, i, q);
    }
  }

  lemma SameViewRemovable(b: Disk, tx: Transaction, t: Disk, u: Disk, i: nat)
    requires Underway(b, tx, t) && Underway(b, tx, u) && i < |tx.plan.targets|
    requires ViewOf(tx, u, i) == ViewOf(tx, t, i)
    ensures Removable(tx, u, i) <==> Removable(tx, t, i)
  {
    ViewFacts(b, tx, t, i);
    ViewFacts(b, tx, u, i);
  }

  // The finisher

  /**
   * finish_cleanup_transaction: on any disk it changes nothing outside the
   * transaction, and it returns only if no target lies below an earlier one.  Where
   * a target, reviewed on `b`, is altered, it fails and changes nothing; and a
   * directory that is not the reviewed one is left alone wherever it stands.  In
   * a run it never fails: it stops only where the process dies, in a state from
   * which it can go on, and with a budget for the work left it ends with exactly
   * the targets gone from the disk.
   */
  method Finish(host: Host, tx: Transaction, ghost b: Disk) returns (r: Outcome, removed: nat)
    modifies host
    ensures NothingElseChanged(tx, old(host.disk), host.disk)
    ensures r.Pass? ==> MarkerPath(tx) !in host.disk
    ensures r.Pass? && ClearOfRoot(tx.plan) ==> NoneNested(tx.plan, |tx.plan.targets|)
    ensures AlteredSince(b, old(host.disk), tx.plan) ==>
      r.Fail? && host.disk == old(host.disk)
    ensures Separated(tx) ==> ForeignKept(b, tx, old(host.disk), host.disk, r)
    ensures Underway(b, tx, old(host.disk)) ==>
      && (r.Pass? <==> old(host.budget) >= WorkLeft(tx, old(host.disk)))
      && (r.Pass? ==> Finished(b, tx, host.disk) && Loaded(host.disk) == NoneFound)
      && (r.Pass? ==> removed == RemovableBelow(tx, old(host.disk), |tx.plan.targets|))
      && (!r.Pass? ==> r.Crash? && Continues(b, tx, old(host.disk), host.disk, old(host.budget)))
  {
    ghost var live, start := Underway(b, tx, host.disk), host.disk;
    removed := 0;
    if live {
      PlanAccepted(b, tx, host.disk);
    }
    if AlteredSince(b, host.disk, tx.plan) {
      SomeAlteredRefused(b, host.disk, tx.plan, true);
    }
    if !PlanStateOk(host.disk, tx.plan, true) {
      return Fail("cycle cleanup target changed after planning"), removed;
    }
    r, removed := FinishTargets(host, tx, b);
    if !r.Pass? {
      if live {
        MarkerCounts(b, tx, host.disk);
      }
      return;
    }
    if live {
      UnderwayLoads(b, tx, host.disk);
    }
    var pending := Load(host);
    if pending != Pending(tx) {
      return Fail("cycle cleanup transaction changed before finalization"), removed;
    }
    ghost var before := host.disk;
    if live {
      OneMarker(b, tx, before);
      LastUnit(b, tx, before);
      MarkerStep(b, tx, before);
    }
    r := host.Unlink(MarkerPath(tx));
    MarkerOutside(tx, before);
    if live && r.Pass? {
      FinishedLoads(b, tx, host.disk);
    }
  }

  lemma PlanAccepted(b: Disk, tx: Transaction, t: Disk)
    requires Underway(b, tx, t)
    ensures PlanStateOk(t, tx.plan, true)
  {
    forall i | 0 <= i < |tx.plan.targets|
      ensures TargetStateOk(t, tx.plan.targets[i], true)
    {
      TargetAccepted(b, tx, t, i);
    }
  }

  lemma MarkerCounts(b: Disk, tx: Transaction, t: Disk)
    requires Underway(b, tx, t)
    ensures WorkLeft(tx, t) >= 1
  {
    OneMarker(b, tx, t);
  }

  lemma MarkerOutside(tx: Transaction, t: Disk)
    ensures NothingElseChanged(tx, t, Removed(t, MarkerPath(tx)))
  {
    assert !Outside(tx, MarkerPath(tx));
  }

  /** One process: it loads whatever is pending and finishes it, with its own budget. */
  method Restart(host: Host, budget: nat, ghost tx: Transaction, ghost b: Disk) returns (done: bool)
    modifies host
    ensures Loaded(old(host.disk)) == NoneFound ==> done && host.disk == old(host.disk)
    ensures Underway(b, tx, old(host.disk)) ==>
      && (done <==> budget >= WorkLeft(tx, old(host.disk)))
      && if done then Finished(b, tx, host.disk) && Loaded(host.disk) == NoneFound
         else Continues(b, tx, old(host.disk), host.disk, budget)
  {
    if Underway(b, tx, host.disk) {
      UnderwayLoads(b, tx, host.disk);
    }
    var pending := Load(host);
    if !pending.Pending? {
      return pending.NoneFound?;
    }
    host.budget := budget;
    var r, removed := Finish(host, pending.transaction, b);
    return r.Pass?;
  }

  /**
   * Any number of crashes and restarts: whatever the budgets, the disk stays in
   * the run, and once their sum reaches the work left the transaction is over.
   */
  method Resume(host: Host, budgets: seq<nat>, ghost tx: Transaction, ghost b: Disk) returns (done: bool)
    requires Underway(b, tx, host.disk)
    modifies host
    ensures done <==> Sum(budgets) >= WorkLeft(tx, old(host.disk))
    ensures if done then Finished(b, tx, host.disk)
            else Underway(b, tx, host.disk) && Loaded(host.disk) == Pending(tx)
  {
    done := false;
    ghost var start := host.disk;
    MarkerCounts(b, tx, start);
    for k := 0 to |budgets|
      invariant done <==> Sum(budgets[..k]) >= WorkLeft(tx, start)
      invariant done ==> Finished(b, tx, host.disk) && Loaded(host.disk) == NoneFound
      invariant !done ==> Continues(b, tx, start, host.disk, Sum(budgets[..k]))
    {
      SumSnoc(budgets, k);
      done := Restart(host, budgets[k], tx, b);
    }
    assert budgets[..|budgets|] == budgets;
    if !done {
      UnderwayLoads(b, tx, host.disk);
    }
  }

  lemma {:induction false} SumSnoc(s: seq<nat>, k: nat)
    requires k < |s|
    ensures Sum(s[..k + 1]) == Sum(s[..k]) + s[k]
  {
    if k == 0 {
      assert s[..1] == [s[0]];
    } else {
      assert s[..k + 1][1..] == s[1..][..k] && s[..k][1..] == s[1..][..k - 1];
      SumSnoc(s[1..], k - 1);
    }
  }
}
