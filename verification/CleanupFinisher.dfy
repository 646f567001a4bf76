/**
 * The finisher of a cleanup transaction.  The ghost parameter `b` stands for the
 * disk the transaction was published on; the contracts that need it start with
 * `Underway(b, ...)`, and the others hold on any disk at all.
 */
module CleanupFinisher {
  import opened Wrappers
  import opened FileTree
  import opened CleanupNames
  import opened CleanupRecords
  import opened CleanupTransaction
  import opened CleanupWork
  import opened CleanupSteps
  import opened CleanupRuns
  import opened CleanupHost
  import opened CleanupReview

  /** The run goes on in `u`, with `spent` changes since `t`. */
  ghost predicate Continues(b: Disk, tx: Transaction, t: Disk, u: Disk, spent: int) {
    Underway(b, tx, u) && WorkLeft(tx, u) + spent == WorkLeft(tx, t)
  }

  /** Whatever is new in `u` is the staging or the phase of target `i`. */
  ghost predicate CreatesOnlyBookkeeping(tx: Transaction, t: Disk, u: Disk, i: nat) {
    forall q | !(StagingPath(tx, i) <= q) && !(PhasePath(tx, i) <= q) :: Get(t, q).None? ==> Get(u, q).None?
  }

  /** load_pending_cleanup_transaction */
  method Load(host: Host) returns (r: Loading)
    ensures r == Loaded(host.disk)
  {
    var t := host.disk;
    if TRANSACTION_ROOT !in t {
      return NoneFound;
    }
    if !TransactionRootOk(t) {
      return Rejected;
    }
    var entries := Children(t, TRANSACTION_ROOT);
    if entries == {} {
      return NoneFound;
    }
    var markers := set n | n in entries && IsMarkerName(n);
    assert markers == MarkerNames(t);
    if |markers| != 1 {
      return Rejected;
    }
    var n :| n in markers;
    OnlyElement(markers, n);
    var marker := TRANSACTION_ROOT + [n];
    if !MarkerOk(t, marker) {
      return Rejected;
    }
    var tx := t[marker].kind.content.transaction;
    if !TransactionRecordOk(tx) || n != MarkerName(tx.plan.cycle) || exists e | e in entries :: !ExpectedEntry(tx, e) {
      return Rejected;
    }
    var ok := LoadTargets(t, tx);
    return if ok then Pending(tx) else Rejected;
  }

  lemma OnlyElement(s: set<string>, n: string)
    requires |s| == 1 && n in s
    ensures s == {n}
  {
    assert |s - {n}| == 0;
  }

  /** The loader's two passes over the directory targets. */
  method LoadTargets(t: Disk, tx: Transaction) returns (ok: bool)
    requires TransactionRecordOk(tx)
    ensures ok <==> forall i | i in tx.directories :: StagingOk(t, tx, i) && PresentTargetOk(t, tx, i)
  {
    for i := 0 to |tx.plan.targets|
      invariant forall k | 0 <= k < i && k in tx.directories :: StagingOk(t, tx, k)
    {
      if i in tx.directories && !StagingOk(t, tx, i) {
        return false;
      }
    }
    for i := 0 to |tx.plan.targets|
      invariant forall k | 0 <= k < i && k in tx.directories :: PresentTargetOk(t, tx, k)
    {
      if i in tx.directories && !PresentTargetOk(t, tx, i) {
        return false;
      }
    }
    return true;
  }

  /** The run is under way and directory target `i` has left its place. */
  ghost predicate Staged(b: Disk, tx: Transaction, t: Disk, i: nat) {
    && Underway(b, tx, t) && IsDirectoryTarget(tx.plan, i)
    && (StagingPath(tx, i) in t || PhasePath(tx, i) in t)
  }

  /** finish_cleanup_staged_directory */
  method FinishStaged(host: Host, tx: Transaction, i: nat, ghost b: Disk) returns (r: Outcome)
    requires i < |tx.plan.targets| && i in tx.directories
    modifies host
    ensures Confined(tx, old(host.disk), host.disk, i)
    ensures CreatesOnlyBookkeeping(tx, old(host.disk), host.disk, i)
    ensures host.budget <= old(host.budget) && (r.Crash? ==> host.budget == 0)
    ensures OtherStaged(b, tx, old(host.disk), i) || OtherRoot(b, tx, old(host.disk), i) ==>
      r.Fail? && host.disk == old(host.disk)
    ensures Staged(b, tx, old(host.disk), i) ==>
      && !r.Fail?
      && Continues(b, tx, old(host.disk), host.disk, old(host.budget) - host.budget)
      && (r.Pass? ==> ViewOf(tx, host.disk, i) == GONE)
  {
    if OtherRoot(b, tx, host.disk, i) && PhasePath(tx, i) !in host.disk {
      RootIsOther(b, tx, host.disk, i);
    }
    r := EnsurePhase(host, tx, i, b);
    if !r.Pass? {
      return;
    }
    r := FinishPhase(host, tx, i, b);
  }

  /** Behind its phase marker: the staging goes, and then the marker. */
  method FinishPhase(host: Host, tx: Transaction, i: nat, ghost b: Disk) returns (r: Outcome)
    requires i < |tx.plan.targets| && i in tx.directories && PhasePath(tx, i) in host.disk
    modifies host
    ensures forall q | !(StagingPath(tx, i) <= q) && q != PhasePath(tx, i) ::
      Get(host.disk, q) == Get(old(host.disk), q)
    ensures host.budget <= old(host.budget) && (r.Crash? ==> host.budget == 0)
    ensures OtherRoot(b, tx, old(host.disk), i) ==> r.Fail? && host.disk == old(host.disk)
    ensures Underway(b, tx, old(host.disk)) && IsDirectoryTarget(tx.plan, i) ==>
      && !r.Fail?
      && Continues(b, tx, old(host.disk), host.disk, old(host.budget) - host.budget)
      && (r.Pass? ==> ViewOf(tx, host.disk, i) == GONE)
  {
    r := DeleteStaging(host, tx, i, b);
    if !r.Pass? {
      return;
    }
    r := DropPhase(host, tx, i, b);
  }

  /** The phase marker is there and valid, or is published now between two looks at the staging. */
  method EnsurePhase(host: Host, tx: Transaction, i: nat, ghost b: Disk) returns (r: Outcome)
    requires i < |tx.plan.targets| && i in tx.directories
    modifies host
    ensures forall q | q != PhasePath(tx, i) :: Get(host.disk, q) == Get(old(host.disk), q)
    ensures host.budget <= old(host.budget) && (r.Crash? ==> host.budget == 0)
    ensures r.Pass? ==> PhasePath(tx, i) in host.disk
    ensures PhasePath(tx, i) in old(host.disk) ==> !r.Crash? && host.disk == old(host.disk)
    ensures OtherStaged(b, tx, old(host.disk), i) ==> r.Fail? && host.disk == old(host.disk)
    ensures Staged(b, tx, old(host.disk), i) ==>
      !r.Fail? && Continues(b, tx, old(host.disk), host.disk, old(host.budget) - host.budget)
  {
    if Staged(b, tx, host.disk, i) {
      ReadyForPhase(b, tx, host.disk, i);
    }
    if PhasePath(tx, i) in host.disk {
      return if PhaseOk(host.disk, tx, i) then Pass else Fail("cycle cleanup rmtree phase is inconsistent");
    }
    r := PublishPhase(host, tx, i, b);
  }

  method PublishPhase(host: Host, tx: Transaction, i: nat, ghost b: Disk) returns (r: Outcome)
    requires i < |tx.plan.targets| && i in tx.directories && PhasePath(tx, i) !in host.disk
    modifies host
    ensures forall q | q != PhasePath(tx, i) :: Get(host.disk, q) == Get(old(host.disk), q)
    ensures host.budget <= old(host.budget) && (r.Crash? ==> host.budget == 0)
    ensures r.Pass? ==> PhasePath(tx, i) in host.disk
    ensures OtherStaged(b, tx, old(host.disk), i) ==> r.Fail? && host.disk == old(host.disk)
    ensures Staged(b, tx, old(host.disk), i) ==>
      !r.Fail? && Continues(b, tx, old(host.disk), host.disk, old(host.budget) - host.budget)
  {
    if OtherStaged(b, tx, host.disk, i) {
      OtherRefused(b, tx, i, Sub(host.disk, StagingPath(tx, i)));
    }
    var target, state := tx.plan.targets[i], tx.directories[i];
    var staging, phase, marker := StagingPath(tx, i), PhasePath(tx, i), MarkerPath(tx);
    ghost var live, before := Staged(b, tx, host.disk, i), host.disk;
    if live {
      ReadyForPhase(b, tx, host.disk, i);
    }
    if !DirectoryOk(target.kind, Sub(host.disk, staging), state) {
      return Fail("cycle cleanup directory changed after transaction publication");
    }
    if marker !in host.disk || !host.disk[marker].kind.Regular? {
      return Fail("cycle cleanup transaction is unavailable");
    }
    r := host.Publish(phase, PhaseFor(tx, i, host.disk[marker].kind.content));
    if !r.Pass? {
      return;
    }
    OthersStay(before, phase, host.disk[phase]);
    if live {
      PhaseJustPublished(b, tx, before, host.disk, i);
    }
    if !PhaseOk(host.disk, tx, i) || !DirectoryOk(target.kind, Sub(host.disk, staging), state) {
      return Fail("cycle cleanup directory changed after transaction publication");
    }
  }

  lemma RootIsOther(b: Disk, tx: Transaction, t: Disk, i: nat)
    requires OtherRoot(b, tx, t, i) && PhasePath(tx, i) !in t
    ensures OtherStaged(b, tx, t, i)
  {
    var p, staging := tx.plan.targets[i].path, StagingPath(tx, i);
    assert p + [] == p && staging + [] == staging;
    assert Sub(t, staging)[[]] == t[staging] && Sub(b, p)[[]] == b[p];
  }

  lemma OthersStay(t: Disk, p: Path, n: Node<Content>)
    ensures forall q | q != p :: Get(t[p := n], q) == Get(t, q)
  {
  }

  lemma ReadyForPhase(b: Disk, tx: Transaction, t: Disk, i: nat)
    requires Staged(b, tx, t, i) && i in tx.directories
    ensures PhasePath(tx, i) in t ==> PhaseOk(t, tx, i)
    ensures PhasePath(tx, i) !in t ==>
      DirectoryOk(tx.plan.targets[i].kind, Sub(t, StagingPath(tx, i)), tx.directories[i])
    ensures MarkerPath(tx) in t && t[MarkerPath(tx)].kind == Regular(TransactionRecord(tx))
    ensures PhasePath(tx, i) != [] && IsDirectory(t, Parent(PhasePath(tx, i)))
  {
    StagingAccepted(b, tx, t, i);
    OneMarker(b, tx, t);
    RootUntouched(b, tx, t);
    assert Parent(PhasePath(tx, i)) == TRANSACTION_ROOT;
  }

  lemma PhaseJustPublished(b: Disk, tx: Transaction, t: Disk, u: Disk, i: nat)
    requires Staged(b, tx, t, i) && i in tx.directories && PhasePath(tx, i) !in t && PhasePath(tx, i) in u
    requires u == t[PhasePath(tx, i) := u[PhasePath(tx, i)]] && CleanupFile(u[PhasePath(tx, i)])
    requires u[PhasePath(tx, i)].kind.content == PhaseFor(tx, i, TransactionRecord(tx))
    ensures Continues(b, tx, t, u, 1) && PhaseOk(u, tx, i)
    ensures DirectoryOk(tx.plan.targets[i].kind, Sub(u, StagingPath(tx, i)), tx.directories[i])
  {
    PhaseStep(b, tx, t, i, u[PhasePath(tx, i)]);
    PhaseAccepted(b, tx, u, i);
  }

  lemma PhaseAccepted(b: Disk, tx: Transaction, t: Disk, i: nat)
    requires Underway(b, tx, t) && IsDirectoryTarget(tx.plan, i) && i in tx.directories
    requires PhasePath(tx, i) in t && Sub(t, StagingPath(tx, i)) == Sub(b, tx.plan.targets[i].path)
    ensures PhaseOk(t, tx, i)
    ensures DirectoryOk(tx.plan.targets[i].kind, Sub(t, StagingPath(tx, i)), tx.directories[i])
  {
    StagingAccepted(b, tx, t, i);
    assert ReviewedTarget(b, tx, i);
  }

  /** rmtree of the staged directory, if any of it is left. */
  method DeleteStaging(host: Host, tx: Transaction, i: nat, ghost b: Disk) returns (r: Outcome)
    requires i < |tx.plan.targets| && i in tx.directories && PhasePath(tx, i) in host.disk
    modifies host
    ensures forall q | !(StagingPath(tx, i) <= q) :: Get(host.disk, q) == Get(old(host.disk), q)
    ensures host.budget <= old(host.budget) && (r.Crash? ==> host.budget == 0)
    ensures r.Pass? ==> StagingPath(tx, i) !in host.disk && PhasePath(tx, i) in host.disk
    ensures OtherRoot(b, tx, old(host.disk), i) ==> r.Fail? && host.disk == old(host.disk)
    ensures Underway(b, tx, old(host.disk)) && IsDirectoryTarget(tx.plan, i) ==>
      !r.Fail? && Continues(b, tx, old(host.disk), host.disk, old(host.budget) - host.budget)
  {
    var staging, state := StagingPath(tx, i), tx.directories[i];
    ghost var live := Underway(b, tx, host.disk) && IsDirectoryTarget(tx.plan, i);
    BookkeepingDistinct(tx, i, i);
    assert !(staging <= PhasePath(tx, i));
    if OtherRoot(b, tx, host.disk, i) {
      ReviewedRoot(b, tx, i);
    }
    if staging !in host.disk {
      return Pass;
    }
    if live {
      StagingAccepted(b, tx, host.disk, i);
    }
    if !OwnedDirectory(host.disk[staging], tx.plan.targets[i].kind != ArtifactTree)
      || host.disk[staging].inode != state.inode
    {
      return Fail("cycle cleanup directory identity changed");
    }
    ghost var before := host.disk;
    r := host.RemoveTree(staging);
    if live {
      PruneStep(b, tx, before, host.disk, i);
    }
    RootOf(host.disk, staging);
    assert Get(host.disk, PhasePath(tx, i)) == Get(before, PhasePath(tx, i));
  }

  /** The phase marker goes once nothing is staged. */
  method DropPhase(host: Host, tx: Transaction, i: nat, ghost b: Disk) returns (r: Outcome)
    requires i < |tx.plan.targets| && i in tx.directories
    requires PhasePath(tx, i) in host.disk && StagingPath(tx, i) !in host.disk
    modifies host
    ensures r.Fail? || r.Crash? ==> host.disk == old(host.disk)
    ensures r.Pass? ==> host.disk == Removed(old(host.disk), PhasePath(tx, i))
    ensures host.budget <= old(host.budget) && (r.Crash? ==> host.budget == 0)
    ensures Underway(b, tx, old(host.disk)) && IsDirectoryTarget(tx.plan, i) ==>
      && !r.Fail?
      && Continues(b, tx, old(host.disk), host.disk, old(host.budget) - host.budget)
      && (r.Pass? ==> ViewOf(tx, host.disk, i) == GONE)
  {
    if Underway(b, tx, host.disk) && IsDirectoryTarget(tx.plan, i) {
      StagingAccepted(b, tx, host.disk, i);
      PhaseDoneStep(b, tx, host.disk, i);
    }
    if !PhaseOk(host.disk, tx, i) {
      return Fail("cycle cleanup rmtree phase is inconsistent");
    }
    r := host.Unlink(PhasePath(tx, i));
  }
}
