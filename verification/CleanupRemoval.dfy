/** finish_cleanup_transaction, target by target, and the publication it resumes from. */
module CleanupRemoval {
  import opened Wrappers
  import opened FileTree
  import opened CleanupNames
  import opened CleanupRecords
  import opened CleanupTransaction
  import opened CleanupSteps
  import opened CleanupRuns
  import opened CleanupHost
  import opened CleanupFinisher
  import opened CleanupReview

  /** In a run, the ancestors of a target stay, and a target that is still there is the reviewed one. */
  lemma TargetAccepted(b: Disk, tx: Transaction, t: Disk, i: nat)
    requires Underway(b, tx, t) && i < |tx.plan.targets|
    ensures TargetStateOk(t, tx.plan.targets[i], true)
  {
    var p := tx.plan.targets[i].path;
    assert ReviewedTarget(b, tx, i);
    forall k | 0 <= k < |p|
      ensures Get(t, p[..k]) == Get(b, p[..k])
    {
      AncestorOutside(tx, i, k);
    }
    RootOf(t, p);
    assert TargetState(Sub(b, p), tx, i, ViewOf(tx, t, i));
  }

  lemma AncestorOutside(tx: Transaction, i: nat, k: nat)
    requires PrefixFree(tx.plan) && ClearOfRoot(tx.plan)
    requires i < |tx.plan.targets| && k < |tx.plan.targets[i].path|
    ensures Outside(tx, tx.plan.targets[i].path[..k])
  {
    var p := tx.plan.targets[i].path;
    var a := p[..k];
    assert a <= p;
    assert forall x: Path :: x <= a ==> x <= p && |x| < |p|;
  }

  /** Staging left by an earlier run is finished first; so is a phase whose staging is gone. */
  method ResumeStaged(host: Host, tx: Transaction, i: nat, ghost b: Disk) returns (r: Outcome)
    requires i < |tx.plan.targets|
    modifies host
    ensures Confined(tx, old(host.disk), host.disk, i)
    ensures CreatesOnlyBookkeeping(tx, old(host.disk), host.disk, i)
    ensures host.budget <= old(host.budget) && (r.Crash? ==> host.budget == 0)
    ensures tx.plan.targets[i].path in old(host.disk) ==> !r.Crash? && host.disk == old(host.disk)
    ensures OtherStaged(b, tx, old(host.disk), i) || OtherRoot(b, tx, old(host.disk), i) ==>
      r.Fail? && host.disk == old(host.disk)
    ensures Underway(b, tx, old(host.disk)) ==>
      && !r.Fail?
      && Continues(b, tx, old(host.disk), host.disk, old(host.budget) - host.budget)
      && (r.Pass? ==> StagingPath(tx, i) !in host.disk && PhasePath(tx, i) !in host.disk)
      && (r.Pass? ==> ViewOf(tx, host.disk, i).here == ViewOf(tx, old(host.disk), i).here)
  {
    var path, staging, phase := tx.plan.targets[i].path, StagingPath(tx, i), PhasePath(tx, i);
    ghost var live := Underway(b, tx, host.disk);
    if live {
      StagedFacts(b, tx, host.disk, i);
    }
    RootOf(host.disk, staging);
    if staging in host.disk {
      if i !in tx.directories {
        return Fail("cycle cleanup has unexpected file-target staging");
      }
      if path in host.disk {
        return Fail("cycle cleanup has both target and removal staging");
      }
      r := FinishStaged(host, tx, i, b);
    } else if i in tx.directories && phase in host.disk {
      if path in host.disk {
        return Fail("cycle cleanup rmtree phase still has its target");
      }
      r := FinishStaged(host, tx, i, b);
    } else {
      return Pass;
    }
    if live && r.Pass? {
      RootOf(host.disk, staging);
      RootOf(host.disk, phase);
    }
  }

  lemma StagedFacts(b: Disk, tx: Transaction, t: Disk, i: nat)
    requires Underway(b, tx, t) && i < |tx.plan.targets|
    ensures StagingPath(tx, i) in t || PhasePath(tx, i) in t ==>
      && IsDirectoryTarget(tx.plan, i) && i in tx.directories
      && tx.plan.targets[i].path !in t && ViewOf(tx, t, i).here == map[]
    ensures i in tx.directories <==> IsDirectoryTarget(tx.plan, i)
  {
    ViewFacts(b, tx, t, i);
  }

  lemma StageTouches(tx: Transaction, t: Disk, i: nat)
    requires i < |tx.plan.targets|
    ensures Confined(tx, t, Moved(t, tx.plan.targets[i].path, StagingPath(tx, i)), i)
    ensures CreatesOnlyBookkeeping(tx, t, Moved(t, tx.plan.targets[i].path, StagingPath(tx, i)), i)
  {
  }

  /** Moves a directory target to its staging name, with a look at it before and after. */
  method StageDirectory(host: Host, tx: Transaction, i: nat, ghost b: Disk) returns (r: Outcome)
    requires i < |tx.plan.targets| && i in tx.directories && tx.plan.targets[i].path in host.disk
    modifies host
    ensures Confined(tx, old(host.disk), host.disk, i)
    ensures CreatesOnlyBookkeeping(tx, old(host.disk), host.disk, i)
    ensures host.budget <= old(host.budget) && (r.Crash? ==> host.budget == 0)
    ensures OtherHere(b, tx, old(host.disk), i) ==> r.Fail? && host.disk == old(host.disk)
    ensures Underway(b, tx, old(host.disk)) && IsDirectoryTarget(tx.plan, i) ==>
      && !r.Fail?
      && Continues(b, tx, old(host.disk), host.disk, old(host.budget) - host.budget)
      && (r.Pass? ==> Staged(b, tx, host.disk, i))
  {
    var target, staging := tx.plan.targets[i], StagingPath(tx, i);
    ghost var live := Underway(b, tx, host.disk) && IsDirectoryTarget(tx.plan, i);
    ghost var before := host.disk;
    if live {
      PresentFacts(b, tx, host.disk, i);
    }
    if OtherHere(b, tx, host.disk, i) {
      OtherRefused(b, tx, i, Sub(host.disk, target.path));
    }
    if !DirectoryOk(target.kind, Sub(host.disk, target.path), tx.directories[i]) {
      return Fail("cycle cleanup directory changed after transaction publication");
    }
    if staging in host.disk {
      return Fail("cycle cleanup directory staging already exists");
    }
    r := host.Rename(target.path, staging);
    if !r.Pass? {
      return;
    }
    StageTouches(tx, before, i);
    if live {
      StageStep(b, tx, before, i);
      RootOf(host.disk, staging);
    }
    if !DirectoryOk(target.kind, Sub(host.disk, staging), tx.directories[i]) {
      return Fail("cycle cleanup directory changed after transaction publication");
    }
  }

  method RemoveDirectory(host: Host, tx: Transaction, i: nat, ghost b: Disk) returns (r: Outcome)
    requires i < |tx.plan.targets| && tx.plan.targets[i].path in host.disk
    modifies host
    ensures Confined(tx, old(host.disk), host.disk, i)
    ensures CreatesOnlyBookkeeping(tx, old(host.disk), host.disk, i)
    ensures host.budget <= old(host.budget) && (r.Crash? ==> host.budget == 0)
    ensures OtherHere(b, tx, old(host.disk), i) ==> r.Fail? && host.disk == old(host.disk)
    ensures Underway(b, tx, old(host.disk)) && IsDirectoryTarget(tx.plan, i) ==>
      && !r.Fail?
      && Continues(b, tx, old(host.disk), host.disk, old(host.budget) - host.budget)
      && (r.Pass? ==> ViewOf(tx, host.disk, i) == GONE)
  {
    if i !in tx.directories {
      return Fail("cycle cleanup has no exact directory state");
    }
    r := StageDirectory(host, tx, i, b);
    if r.Pass? {
      r := FinishStaged(host, tx, i, b);
    }
  }

  method RemoveFile(host: Host, tx: Transaction, i: nat, ghost b: Disk) returns (r: Outcome)
    requires i < |tx.plan.targets| && tx.plan.targets[i].path in host.disk
    modifies host
    ensures Confined(tx, old(host.disk), host.disk, i)
    ensures CreatesOnlyBookkeeping(tx, old(host.disk), host.disk, i)
    ensures host.budget <= old(host.budget) && (r.Crash? ==> host.budget == 0)
    ensures Underway(b, tx, old(host.disk)) && !IsDirectoryTarget(tx.plan, i) ==>
      && !r.Fail?
      && Continues(b, tx, old(host.disk), host.disk, old(host.budget) - host.budget)
      && (r.Pass? ==> ViewOf(tx, host.disk, i) == GONE)
  {
    UnlinkConfined(tx, host.disk, i);
    if Underway(b, tx, host.disk) && !IsDirectoryTarget(tx.plan, i) {
      UnlinkLive(b, tx, host.disk, i);
    }
    r := host.Unlink(tx.plan.targets[i].path);
  }

  lemma UnlinkConfined(tx: Transaction, t: Disk, i: nat)
    requires i < |tx.plan.targets|
    ensures Confined(tx, t, Removed(t, tx.plan.targets[i].path), i)
    ensures CreatesOnlyBookkeeping(tx, t, Removed(t, tx.plan.targets[i].path), i)
  {
    assert Touches(tx, i, tx.plan.targets[i].path);
  }

  lemma UnlinkLive(b: Disk, tx: Transaction, t: Disk, i: nat)
    requires Underway(b, tx, t) && i < |tx.plan.targets| && !IsDirectoryTarget(tx.plan, i)
    requires tx.plan.targets[i].path in t
    ensures !t[tx.plan.targets[i].path].kind.Directory?
    ensures Continues(b, tx, t, t, 0)
    ensures Continues(b, tx, t, Removed(t, tx.plan.targets[i].path), 1)
    ensures ViewOf(tx, Removed(t, tx.plan.targets[i].path), i) == GONE
  {
    PresentFacts(b, tx, t, i);
    FileStep(b, tx, t, i);
  }

  /** A target in its place: a directory is staged and deleted behind its phase, a file unlinked. */
  method RemovePresent(host: Host, tx: Transaction, i: nat, ghost b: Disk) returns (r: Outcome)
    requires i < |tx.plan.targets| && tx.plan.targets[i].path in host.disk
    modifies host
    ensures Confined(tx, old(host.disk), host.disk, i)
    ensures CreatesOnlyBookkeeping(tx, old(host.disk), host.disk, i)
    ensures host.budget <= old(host.budget) && (r.Crash? ==> host.budget == 0)
    ensures OtherHere(b, tx, old(host.disk), i) ==> r.Fail? && host.disk == old(host.disk)
    ensures Underway(b, tx, old(host.disk)) ==>
      && !r.Fail?
      && Continues(b, tx, old(host.disk), host.disk, old(host.budget) - host.budget)
      && (r.Pass? ==> ViewOf(tx, host.disk, i) == GONE)
  {
    if RemovesDirectory(tx.plan.targets[i].kind) {
      r := RemoveDirectory(host, tx, i, b);
    } else {
      r := RemoveFile(host, tx, i, b);
    }
  }

  lemma PresentFacts(b: Disk, tx: Transaction, t: Disk, i: nat)
    requires Underway(b, tx, t) && i < |tx.plan.targets| && tx.plan.targets[i].path in t
    ensures var target := tx.plan.targets[i];
      && StagingPath(tx, i) !in t && PhasePath(tx, i) !in t
      && Sub(t, target.path) == Sub(b, target.path)
      && (RemovesDirectory(target.kind) ==>
            i in tx.directories && DirectoryOk(target.kind, Sub(b, target.path), tx.directories[i]))
      && (!RemovesDirectory(target.kind) ==> !t[target.path].kind.Directory?)
      && !(target.path <= StagingPath(tx, i))
    ensures StagingPath(tx, i) != [] && IsDirectory(t, Parent(StagingPath(tx, i)))
    ensures [] in Sub(b, tx.plan.targets[i].path)
  {
    var p := tx.plan.targets[i].path;
    StagedFacts(b, tx, t, i);
    RootOf(t, p);
    RootOf(b, p);
    RootUntouched(b, tx, t);
    RootIsSeparate(tx.plan, i, StagingPath(tx, i));
    assert Parent(StagingPath(tx, i)) == TRANSACTION_ROOT;
    assert p + [] == p && Sub(t, p)[[]] == Sub(b, p)[[]];
    assert ReviewedTarget(b, tx, i);
  }
}
