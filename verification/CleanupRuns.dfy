/**
 * Every run of a cleanup: the loader accepts each state it reaches, and what a
 * reader of the disk may rely on in that state.
 */
module CleanupRuns {
  import opened Wrappers
  import opened FileTree
  import opened CleanupNames
  import opened CleanupRecords
  import opened CleanupTransaction
  import opened CleanupWork
  import opened CleanupSteps

  // Publication

  lemma PublishedSubs(tx: Transaction, b: Disk, n: Node<Content>, i: nat)
    requires IsCycleName(tx.plan.cycle) && ClearOfRoot(tx.plan) && i < |tx.plan.targets|
    requires forall q | q in b :: !(TRANSACTION_ROOT < q)
    ensures ViewOf(tx, b[MarkerPath(tx) := n], i) == View(Sub(b, tx.plan.targets[i].path), map[], map[])
  {
    var p, s, f, m := tx.plan.targets[i].path, StagingPath(tx, i), PhasePath(tx, i), MarkerPath(tx);
    BookkeepingDistinct(tx, i, i);
    RootIsSeparate(tx.plan, i, m);
    EmptyBelowRoot(b, s);
    EmptyBelowRoot(b, f);
    CreatedFrame(b, m, n, p);
    CreatedFrame(b, m, n, s);
    CreatedFrame(b, m, n, f);
  }

  lemma EmptyBelowRoot(b: Disk, q: Path)
    requires TRANSACTION_ROOT < q
    requires forall x | x in b :: !(TRANSACTION_ROOT < x)
    ensures Sub(b, q) == map[]
  {
    forall r
      ensures r !in Sub(b, q)
    {
      assert TRANSACTION_ROOT < q + r;
    }
  }

  /** Publishing the marker on a reviewed disk starts a run. */
  lemma PublishStep(b: Disk, tx: Transaction, n: Node<Content>)
    requires Reviewed(b, tx)
    requires CleanupFile(n) && n.mode == PRIVATE_FILE && n.kind.content == TransactionRecord(tx)
    ensures Underway(b, tx, b[MarkerPath(tx) := n])
  {
    EmptyBelowRoot(b, MarkerPath(tx));
    CreatedSub(b, MarkerPath(tx), n);
    forall i | 0 <= i < |tx.plan.targets|
      ensures TargetState(Sub(b, tx.plan.targets[i].path), tx, i, ViewOf(tx, b[MarkerPath(tx) := n], i))
    {
      PublishedSubs(tx, b, n, i);
    }
  }

  // The loader accepts every state of a run

  lemma RootUntouched(b: Disk, tx: Transaction, t: Disk)
    requires Underway(b, tx, t)
    ensures Get(t, TRANSACTION_ROOT) == Get(b, TRANSACTION_ROOT)
  {
    assert Outside(tx, TRANSACTION_ROOT);
  }

  /** Only the marker and what directory targets stage lie in the transaction root. */
  lemma EntryKnown(b: Disk, tx: Transaction, t: Disk, n: string)
    requires Underway(b, tx, t) && TRANSACTION_ROOT + [n] in t
    ensures ExpectedEntry(tx, n)
  {
    var q := TRANSACTION_ROOT + [n];
    assert q[1] == n;
    if !(MarkerPath(tx) <= q) {
      assert !Outside(tx, q);
      var i :| 0 <= i < |tx.plan.targets| && Touches(tx, i, q);
      RootIsSeparate(tx.plan, i, q);
      assert q == StagingPath(tx, i) || q == PhasePath(tx, i);
      BookkeepingPresent(tx, t, i, q);
      assert TargetState(Sub(b, tx.plan.targets[i].path), tx, i, ViewOf(tx, t, i));
    }
  }

  lemma BookkeepingPresent(tx: Transaction, t: Disk, i: nat, q: Path)
    requires i < |tx.plan.targets| && q in t
    requires q == StagingPath(tx, i) || q == PhasePath(tx, i)
    ensures ViewOf(tx, t, i).staged != map[] || ViewOf(tx, t, i).phase != map[]
  {
    RootOf(t, q);
  }

  lemma PresentWhenSeen(t: Disk, p: Path)
    requires Sub(t, p) == map[] || [] in Sub(t, p)
    ensures p in t <==> Sub(t, p) != map[]
  {
    RootOf(t, p);
  }

  /** A part of a target is seen exactly when its root is on the disk. */
  lemma ViewFacts(b: Disk, tx: Transaction, t: Disk, i: nat)
    requires Underway(b, tx, t) && i < |tx.plan.targets|
    ensures tx.plan.targets[i].path in t <==> ViewOf(tx, t, i).here != map[]
    ensures StagingPath(tx, i) in t <==> ViewOf(tx, t, i).staged != map[]
    ensures PhasePath(tx, i) in t <==> ViewOf(tx, t, i).phase != map[]
  {
    var full := Sub(b, tx.plan.targets[i].path);
    RootOf(b, tx.plan.targets[i].path);
    assert ReviewedTarget(b, tx, i) && [] in full;
    assert TargetState(full, tx, i, ViewOf(tx, t, i));
    PresentWhenSeen(t, tx.plan.targets[i].path);
    PresentWhenSeen(t, StagingPath(tx, i));
    PresentWhenSeen(t, PhasePath(tx, i));
  }

  lemma RootNode(t: Disk, q: Path)
    requires q in t
    ensures [] in Sub(t, q) && Sub(t, q)[[]] == t[q]
  {
    assert q + [] == q;
  }

  /** The loader's look at one target, from what is seen of it. */
  lemma StagingFits(tx: Transaction, t: Disk, i: nat, full: Disk)
    requires i < |tx.plan.targets| && i in tx.directories && IsDirectoryTarget(tx.plan, i)
    requires TargetState(full, tx, i, ViewOf(tx, t, i))
    requires DirectoryOk(tx.plan.targets[i].kind, full, tx.directories[i])
    requires tx.plan.targets[i].path in t <==> ViewOf(tx, t, i).here != map[]
    requires StagingPath(tx, i) in t <==> ViewOf(tx, t, i).staged != map[]
    requires PhasePath(tx, i) in t <==> ViewOf(tx, t, i).phase != map[]
    requires MarkerPath(tx) in t && t[MarkerPath(tx)].kind == Regular(TransactionRecord(tx))
    ensures StagingOk(t, tx, i) && PresentTargetOk(t, tx, i)
  {
    if PhasePath(tx, i) in t {
      RootNode(t, PhasePath(tx, i));
    }
    if StagingPath(tx, i) in t {
      RootNode(t, StagingPath(tx, i));
    }
  }

  lemma StagingAccepted(b: Disk, tx: Transaction, t: Disk, i: nat)
    requires Underway(b, tx, t) && i < |tx.plan.targets| && i in tx.directories
    ensures StagingOk(t, tx, i) && PresentTargetOk(t, tx, i)
  {
    ViewFacts(b, tx, t, i);
    RootOf(t, MarkerPath(tx));
    RootNode(t, MarkerPath(tx));
    assert ReviewedTarget(b, tx, i);
    StagingFits(tx, t, i, Sub(b, tx.plan.targets[i].path));
  }

  lemma OneMarker(b: Disk, tx: Transaction, t: Disk)
    requires Underway(b, tx, t)
    ensures MarkerNames(t) == {MarkerName(tx.plan.cycle)}
    ensures MarkerOk(t, MarkerPath(tx)) && t[MarkerPath(tx)].kind.content == TransactionRecord(tx)
  {
    MarkerNameIsOne(tx.plan.cycle);
    RootOf(t, MarkerPath(tx));
    assert MarkerPath(tx) + [] == MarkerPath(tx);
    forall n | n in MarkerNames(t)
      ensures n == MarkerName(tx.plan.cycle)
    {
      EntryKnown(b, tx, t, n);
    }
  }

  /** A restart in any state of a run finds exactly the published transaction. */
  lemma UnderwayLoads(b: Disk, tx: Transaction, t: Disk)
    requires Underway(b, tx, t)
    ensures Loaded(t) == Pending(tx)
  {
    RootUntouched(b, tx, t);
    OneMarker(b, tx, t);
    forall n | n in Children(t, TRANSACTION_ROOT)
      ensures ExpectedEntry(tx, n)
    {
      EntryKnown(b, tx, t, n);
    }
    forall i | i in tx.directories
      ensures StagingOk(t, tx, i) && PresentTargetOk(t, tx, i)
    {
      StagingAccepted(b, tx, t, i);
    }
    assert MarkerName(tx.plan.cycle) in Children(t, TRANSACTION_ROOT);
  }

  // The end of a run

  const GONE := View(map[], map[], map[])

  ghost predicate AllGone(tx: Transaction, t: Disk, n: nat)
    requires n <= |tx.plan.targets|
  {
    forall i | 0 <= i < n :: ViewOf(tx, t, i) == GONE
  }

  lemma {:induction false} SumZero(s: seq<nat>)
    requires forall i | 0 <= i < |s| :: s[i] == 0
    ensures Sum(s) == 0
  {
    if s != [] {
      SumZero(s[1..]);
    }
  }

  lemma GoneBelow(tx: Transaction, t: Disk, i: nat, q: Path)
    requires i < |tx.plan.targets| && ViewOf(tx, t, i) == GONE && Touches(tx, i, q)
    ensures Get(t, q) == None
  {
    var p := if tx.plan.targets[i].path <= q then tx.plan.targets[i].path
             else if StagingPath(tx, i) <= q then StagingPath(tx, i) else PhasePath(tx, i);
    assert q == p + q[|p|..];
    assert q[|p|..] !in Sub(t, p);
  }

  lemma FinishedAt(b: Disk, tx: Transaction, t: Disk, q: Path)
    requires Underway(b, tx, t) && AllGone(tx, t, |tx.plan.targets|)
    requires !(MarkerPath(tx) <= q)
    ensures Get(t, q) ==
      if exists i | 0 <= i < |tx.plan.targets| :: tx.plan.targets[i].path <= q then None else Get(b, q)
  {
    if i :| 0 <= i < |tx.plan.targets| && Touches(tx, i, q) {
      GoneBelow(tx, t, i, q);
      assert !(tx.plan.targets[i].path <= q) ==> TRANSACTION_ROOT < q;
    } else {
      forall i | 0 <= i < |tx.plan.targets|
        ensures !(tx.plan.targets[i].path <= q)
      {
        assert !Touches(tx, i, q);
      }
      assert Outside(tx, q);
    }
  }

  lemma LastUnit(b: Disk, tx: Transaction, t: Disk)
    requires Underway(b, tx, t) && AllGone(tx, t, |tx.plan.targets|)
    ensures WorkLeft(tx, t) == 1
  {
    RootOf(t, MarkerPath(tx));
    SumZero(Works(tx, t));
  }

  lemma MarkerGoneBelow(b: Disk, tx: Transaction, t: Disk, q: Path)
    requires Underway(b, tx, t) && AllGone(tx, t, |tx.plan.targets|) && MarkerPath(tx) <= q
    ensures q !in Removed(t, MarkerPath(tx)) && q !in b
    ensures forall i | 0 <= i < |tx.plan.targets| :: !(tx.plan.targets[i].path <= q)
  {
    var m := MarkerPath(tx);
    LoneNodeRemoved(t, m);
    assert q == m + q[|m|..];
    assert q[|m|..] !in Sub(Removed(t, m), m);
    MarkerIsNew(b, tx, q);
  }

  /** Removing the marker ends the run, and only the targets are missing from the disk. */
  lemma MarkerStep(b: Disk, tx: Transaction, t: Disk)
    requires Underway(b, tx, t) && AllGone(tx, t, |tx.plan.targets|)
    ensures Finished(b, tx, Removed(t, MarkerPath(tx)))
  {
    forall q
      ensures Get(Removed(t, MarkerPath(tx)), q) ==
        if exists i | 0 <= i < |tx.plan.targets| :: tx.plan.targets[i].path <= q then None else Get(b, q)
    {
      if MarkerPath(tx) <= q {
        MarkerGoneBelow(b, tx, t, q);
      } else {
        FinishedAt(b, tx, t, q);
      }
    }
  }

  lemma MarkerIsNew(b: Disk, tx: Transaction, q: Path)
    requires Reviewed(b, tx) && MarkerPath(tx) <= q
    ensures q !in b && forall i | 0 <= i < |tx.plan.targets| :: !(tx.plan.targets[i].path <= q)
  {
    assert TRANSACTION_ROOT < q;
    forall i | 0 <= i < |tx.plan.targets|
      ensures !(tx.plan.targets[i].path <= q)
    {
      RootIsSeparate(tx.plan, i, q);
    }
  }

  /** Once finished, nothing is pending and every target is gone. */
  lemma FinishedLoads(b: Disk, tx: Transaction, t: Disk)
    requires Reviewed(b, tx) && Finished(b, tx, t)
    ensures Loaded(t) == NoneFound
    ensures forall i | 0 <= i < |tx.plan.targets| :: tx.plan.targets[i].path !in t
  {
    assert Get(t, TRANSACTION_ROOT) == Get(b, TRANSACTION_ROOT);
    forall n
      ensures n !in Children(t, TRANSACTION_ROOT)
    {
      var q := TRANSACTION_ROOT + [n];
      assert TRANSACTION_ROOT < q;
      assert Get(t, q) == None;
    }
    assert Children(t, TRANSACTION_ROOT) == {};
    forall i | 0 <= i < |tx.plan.targets|
      ensures tx.plan.targets[i].path !in t
    {
      assert Get(t, tx.plan.targets[i].path) == None;
    }
  }

  // What holds in every state of a run

  /**
   * A directory target that is still there is whole and has no staging or phase;
   * a part of one lies only under its staging name, behind its phase marker.
   */
  lemma DirectoryTargetSafety(b: Disk, tx: Transaction, t: Disk, i: nat)
    requires Underway(b, tx, t) && IsDirectoryTarget(tx.plan, i)
    ensures var p, s, f := tx.plan.targets[i].path, StagingPath(tx, i), PhasePath(tx, i);
      && (p in t ==> Sub(t, p) == Sub(b, p) && s !in t && f !in t)
      && (s in t && Sub(t, s) != Sub(b, p) ==> f in t && PhaseOk(t, tx, i))
      && (f in t ==> PhaseOk(t, tx, i))
      && (s !in t ==> Sub(t, s) == map[])
  {
    var p, s, f := tx.plan.targets[i].path, StagingPath(tx, i), PhasePath(tx, i);
    RootOf(t, p);
    RootOf(t, s);
    RootOf(t, f);
    RootOf(b, p);
    assert ReviewedTarget(b, tx, i) && [] in Sub(b, p);
    StagingAccepted(b, tx, t, i);
    assert TargetState(Sub(b, p), tx, i, ViewOf(tx, t, i));
  }

  /** Nothing outside the plan and the transaction root changes, and the marker stays to the end. */
  lemma OutsideSafety(b: Disk, tx: Transaction, t: Disk, q: Path)
    requires Underway(b, tx, t)
    requires !(TRANSACTION_ROOT < q) && forall i | 0 <= i < |tx.plan.targets| :: !(tx.plan.targets[i].path <= q)
    ensures Get(t, q) == Get(b, q)
    ensures MarkerPath(tx) in t
  {
    RootOf(t, MarkerPath(tx));
    assert forall i | 0 <= i < |tx.plan.targets| :: !Touches(tx, i, q);
    assert Outside(tx, q);
  }

  // Runs as sequences of atomic changes

  ghost predicate DirectoryChange(tx: Transaction, t: Disk, u: Disk, i: nat)
    requires IsDirectoryTarget(tx.plan, i) && i in tx.directories
  {
    var p, s, f := tx.plan.targets[i].path, StagingPath(tx, i), PhasePath(tx, i);
    || (p in t && s !in t && u == Moved(t, p, s))
    || (s in t && f !in t && exists n: Node<Content> ::
          CleanupFile(n) && n.kind.content == PhaseFor(tx, i, TransactionRecord(tx)) && u == t[f := n])
    || (f in t && exists r :: IsLeaf(t, s + r) && u == Removed(t, s + r))
    || (f in t && s !in t && u == Removed(t, f))
  }

  /** One atomic change of the finisher, on any target. */
  ghost predicate Change(tx: Transaction, t: Disk, u: Disk) {
    exists i | 0 <= i < |tx.plan.targets| ::
      if IsDirectoryTarget(tx.plan, i) then i in tx.directories && DirectoryChange(tx, t, u, i)
      else tx.plan.targets[i].path in t && u == Removed(t, tx.plan.targets[i].path)
  }

  lemma ChangeKeeps(b: Disk, tx: Transaction, t: Disk, u: Disk)
    requires Underway(b, tx, t) && Change(tx, t, u)
    ensures Underway(b, tx, u) && WorkLeft(tx, u) == WorkLeft(tx, t) - 1
  {
    var i :| 0 <= i < |tx.plan.targets| &&
      if IsDirectoryTarget(tx.plan, i) then i in tx.directories && DirectoryChange(tx, t, u, i)
      else tx.plan.targets[i].path in t && u == Removed(t, tx.plan.targets[i].path);
    if IsDirectoryTarget(tx.plan, i) {
      DirectoryChangeKeeps(b, tx, t, u, i);
    } else {
      FileStep(b, tx, t, i);
    }
  }

  lemma DirectoryChangeKeeps(b: Disk, tx: Transaction, t: Disk, u: Disk, i: nat)
    requires Underway(b, tx, t) && IsDirectoryTarget(tx.plan, i) && i in tx.directories
    requires DirectoryChange(tx, t, u, i)
    ensures Underway(b, tx, u) && WorkLeft(tx, u) == WorkLeft(tx, t) - 1
  {
    var p, s, f := tx.plan.targets[i].path, StagingPath(tx, i), PhasePath(tx, i);
    if p in t && s !in t && u == Moved(t, p, s) {
      StageStep(b, tx, t, i);
    } else if s in t && f !in t {
      var n: Node<Content> :|
        CleanupFile(n) && n.kind.content == PhaseFor(tx, i, TransactionRecord(tx)) && u == t[f := n];
      PhaseStep(b, tx, t, i, n);
    } else if f in t && s !in t && u == Removed(t, f) {
      PhaseDoneStep(b, tx, t, i);
    } else {
      var r :| IsLeaf(t, s + r) && u == Removed(t, s + r);
      RemoveStep(b, tx, t, i, r);
    }
  }

  ghost predicate IsRun(b: Disk, tx: Transaction, run: seq<Disk>) {
    && run != []
    && Underway(b, tx, run[0])
    && forall k | 0 < k < |run| :: Change(tx, run[k - 1], run[k])
  }

  /**
   * Every state of every run keeps the invariant and loads as the same
   * transaction, and each change does one unit of work, so no run has more
   * changes than the work it started with.
   */
  lemma {:induction false} EveryState(b: Disk, tx: Transaction, run: seq<Disk>, k: nat)
    requires IsRun(b, tx, run) && k < |run|
    ensures Underway(b, tx, run[k]) && Loaded(run[k]) == Pending(tx)
    ensures WorkLeft(tx, run[k]) == WorkLeft(tx, run[0]) - k
  {
    if k > 0 {
      EveryState(b, tx, run, k - 1);
      ChangeKeeps(b, tx, run[k - 1], run[k]);
    }
    UnderwayLoads(b, tx, run[k]);
  }
}
