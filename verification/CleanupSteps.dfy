/**
 * The atomic changes of a cleanup.  Each one keeps the invariant and takes
 * exactly one unit off the work left, wherever a crash cuts the run.
 */
module CleanupSteps {
  import opened FileTree
  import opened CleanupNames
  import opened CleanupRecords
  import opened CleanupTransaction
  import opened CleanupWork

  lemma {:induction false} WorksUpdated(tx: Transaction, t: Disk, u: Disk, i: nat)
    requires i < |tx.plan.targets|
    requires forall j | 0 <= j < |tx.plan.targets| && j != i :: ViewOf(tx, u, j) == ViewOf(tx, t, j)
    ensures Works(tx, u) == Works(tx, t)[i := Work(IsDirectoryTarget(tx.plan, i), ViewOf(tx, u, i))]
  {
    var before, after := Works(tx, t), Works(tx, u);
    forall j | 0 <= j < |after| && j != i
      ensures after[j] == before[j]
    {
      assert ViewOf(tx, u, j) == ViewOf(tx, t, j);
    }
    OneEntry(before, after, i, Work(IsDirectoryTarget(tx.plan, i), ViewOf(tx, u, i)));
  }

  lemma OneEntry(before: seq<nat>, after: seq<nat>, i: nat, v: nat)
    requires |after| == |before| && i < |after| && after[i] == v
    requires forall j | 0 <= j < |after| && j != i :: after[j] == before[j]
    ensures after == before[i := v]
  {
  }

  /** A change inside target `i`'s paths keeps the invariant and changes only that target's work. */
  lemma StepDone(b: Disk, tx: Transaction, t: Disk, u: Disk, i: nat)
    requires Underway(b, tx, t) && i < |tx.plan.targets|
    requires Confined(tx, t, u, i)
    requires TargetState(Sub(b, tx.plan.targets[i].path), tx, i, ViewOf(tx, u, i))
    ensures Underway(b, tx, u)
    ensures var directory := IsDirectoryTarget(tx.plan, i);
      WorkLeft(tx, u) + Work(directory, ViewOf(tx, t, i)) == WorkLeft(tx, t) + Work(directory, ViewOf(tx, u, i))
  {
    StepFrame(b, tx, t, u, i);
    OtherViewsKept(tx, t, u, i);
    WorksUpdated(tx, t, u, i);
    SumUpdate(Works(tx, t), i, Work(IsDirectoryTarget(tx.plan, i), ViewOf(tx, u, i)));
    MarkerKept(tx, t, u, i);
    RootOf(t, MarkerPath(tx));
    RootOf(u, MarkerPath(tx));
  }

  lemma TargetPathsApart(tx: Transaction, i: nat)
    requires ClearOfRoot(tx.plan) && i < |tx.plan.targets|
    ensures var p, s, f := tx.plan.targets[i].path, StagingPath(tx, i), PhasePath(tx, i);
      !(p <= s) && !(s <= p) && !(p <= f) && !(f <= p) && !(s <= f) && !(f <= s)
  {
    RootIsSeparate(tx.plan, i, StagingPath(tx, i));
    RootIsSeparate(tx.plan, i, PhasePath(tx, i));
    BookkeepingDistinct(tx, i, i);
    var p := tx.plan.targets[i].path;
    assert StagingPath(tx, i)[..1] == TRANSACTION_ROOT == PhasePath(tx, i)[..1];
  }

  lemma MovedFrame(t: Disk, p: Path, s: Path, f: Path)
    requires !(s <= p) && !(p <= s) && !(f <= p) && !(p <= f) && !(s <= f) && !(f <= s)
    requires Sub(t, s) == map[]
    ensures Sub(Moved(t, p, s), f) == Sub(t, f) && Get(Moved(t, p, s), f) == Get(t, f)
  {
    MovedSub(t, p, s);
    forall q | f <= q
      ensures Get(Moved(t, p, s), q) == Get(t, q)
    {
      ApartBelow(f, p, q);
      ApartBelow(f, s, q);
    }
    SubFrame(Moved(t, p, s), t, f);
  }

  lemma StageView(tx: Transaction, t: Disk, i: nat)
    requires ClearOfRoot(tx.plan) && i < |tx.plan.targets|
    requires Sub(t, StagingPath(tx, i)) == map[]
    ensures var u := Moved(t, tx.plan.targets[i].path, StagingPath(tx, i));
      && ViewOf(tx, u, i) == View(map[], Sub(t, tx.plan.targets[i].path), Sub(t, PhasePath(tx, i)))
      && Confined(tx, t, u, i)
  {
    TargetPathsApart(tx, i);
    MovedSub(t, tx.plan.targets[i].path, StagingPath(tx, i));
    MovedFrame(t, tx.plan.targets[i].path, StagingPath(tx, i), PhasePath(tx, i));
  }

  /** Renaming a directory target to its staging name. */
  lemma StageStep(b: Disk, tx: Transaction, t: Disk, i: nat)
    requires Underway(b, tx, t) && IsDirectoryTarget(tx.plan, i)
    requires tx.plan.targets[i].path in t && StagingPath(tx, i) !in t
    ensures var u := Moved(t, tx.plan.targets[i].path, StagingPath(tx, i));
      && Underway(b, tx, u) && WorkLeft(tx, u) == WorkLeft(tx, t) - 1
      && ViewOf(tx, u, i) == View(map[], Sub(b, tx.plan.targets[i].path), map[])
  {
    var full := Sub(b, tx.plan.targets[i].path);
    RootOf(t, tx.plan.targets[i].path);
    RootOf(t, StagingPath(tx, i));
    assert ViewOf(tx, t, i) == View(full, map[], map[]);
    StageView(tx, t, i);
    StepDone(b, tx, t, Moved(t, tx.plan.targets[i].path, StagingPath(tx, i)), i);
  }

  lemma PhaseView(tx: Transaction, t: Disk, i: nat, n: Node<Content>)
    requires ClearOfRoot(tx.plan) && i < |tx.plan.targets|
    requires Sub(t, PhasePath(tx, i)) == map[]
    ensures var u := t[PhasePath(tx, i) := n];
      ViewOf(tx, u, i) == ViewOf(tx, t, i).(phase := map[[] := n]) && Confined(tx, t, u, i)
  {
    TargetPathsApart(tx, i);
    CreatedSub(t, PhasePath(tx, i), n);
    CreatedFrame(t, PhasePath(tx, i), n, tx.plan.targets[i].path);
    CreatedFrame(t, PhasePath(tx, i), n, StagingPath(tx, i));
  }

  lemma PhasePublished(tx: Transaction, i: nat, full: Disk, n: Node<Content>)
    requires IsDirectoryTarget(tx.plan, i) && i in tx.directories && [] in full
    requires CleanupFile(n) && n.kind.content == PhaseFor(tx, i, TransactionRecord(tx))
    ensures var before, after := View(map[], full, map[]), View(map[], full, map[[] := n]);
      TargetState(full, tx, i, after) && Work(true, after) == Work(true, before) - 1
  {
    var phase: Disk := map[[] := n];
    assert [] in phase;
  }

  /** Publishing the phase marker of a staged directory. */
  lemma PhaseStep(b: Disk, tx: Transaction, t: Disk, i: nat, n: Node<Content>)
    requires Underway(b, tx, t) && IsDirectoryTarget(tx.plan, i)
    requires StagingPath(tx, i) in t && PhasePath(tx, i) !in t
    requires CleanupFile(n) && n.kind.content == PhaseFor(tx, i, TransactionRecord(tx))
    ensures var u := t[PhasePath(tx, i) := n];
      && Underway(b, tx, u) && WorkLeft(tx, u) == WorkLeft(tx, t) - 1
      && ViewOf(tx, u, i) == View(map[], Sub(b, tx.plan.targets[i].path), map[[] := n])
  {
    var full := Sub(b, tx.plan.targets[i].path);
    RootOf(t, StagingPath(tx, i));
    RootOf(t, PhasePath(tx, i));
    assert ViewOf(tx, t, i) == View(map[], full, map[]);
    PhaseView(tx, t, i, n);
    PhasePublished(tx, i, full, n);
    StepDone(b, tx, t, t[PhasePath(tx, i) := n], i);
  }

  lemma RemoveConfined(tx: Transaction, t: Disk, i: nat, r: Path)
    requires i < |tx.plan.targets|
    ensures Confined(tx, t, Removed(t, StagingPath(tx, i) + r), i)
  {
    assert Touches(tx, i, StagingPath(tx, i) + r);
  }

  lemma RemoveView(tx: Transaction, t: Disk, i: nat, r: Path)
    requires ClearOfRoot(tx.plan) && i < |tx.plan.targets|
    requires StagingPath(tx, i) + r in t
    ensures var u, v := Removed(t, StagingPath(tx, i) + r), ViewOf(tx, t, i);
      ViewOf(tx, u, i) == v.(staged := v.staged - {r})
  {
    var p, s, f := tx.plan.targets[i].path, StagingPath(tx, i), PhasePath(tx, i);
    TargetPathsApart(tx, i);
    ApartBelow(s, p, s + r);
    ApartBelow(s, f, s + r);
    RemovedFrame(t, s + r, p);
    RemovedFrame(t, s + r, f);
    RemovedSub(t, s, r);
  }

  /** One entry of rmtree: a staged node with nothing below it. */
  lemma RemoveStep(b: Disk, tx: Transaction, t: Disk, i: nat, r: Path)
    requires Underway(b, tx, t) && IsDirectoryTarget(tx.plan, i)
    requires PhasePath(tx, i) in t && IsLeaf(t, StagingPath(tx, i) + r)
    ensures var u, v := Removed(t, StagingPath(tx, i) + r), ViewOf(tx, t, i);
      && Underway(b, tx, u) && WorkLeft(tx, u) == WorkLeft(tx, t) - 1
      && ViewOf(tx, u, i) == v.(staged := v.staged - {r})
  {
    var v := ViewOf(tx, t, i);
    RootOf(t, PhasePath(tx, i));
    assert v.phase != map[] && v.here == map[];
    RemoveConfined(tx, t, i, r);
    RemoveView(tx, t, i, r);
    DropSize(v.staged, r);
    LeafRemains(t, StagingPath(tx, i), r, Sub(b, tx.plan.targets[i].path));
    StepDone(b, tx, t, Removed(t, StagingPath(tx, i) + r), i);
  }

  lemma RemainsTransitive(m: Disk, n: Disk, full: Disk)
    requires Remains(m, n) && Remains(n, full)
    ensures Remains(m, full)
  {
  }

  lemma PrunedView(tx: Transaction, t: Disk, u: Disk, i: nat)
    requires ClearOfRoot(tx.plan) && i < |tx.plan.targets|
    requires forall q | !(StagingPath(tx, i) <= q) :: Get(u, q) == Get(t, q)
    ensures ViewOf(tx, u, i) == ViewOf(tx, t, i).(staged := Sub(u, StagingPath(tx, i)))
    ensures Confined(tx, t, u, i)
  {
    var p, s, f := tx.plan.targets[i].path, StagingPath(tx, i), PhasePath(tx, i);
    TargetPathsApart(tx, i);
    forall q | p <= q || f <= q
      ensures Get(u, q) == Get(t, q)
    {
      ApartBelow(if p <= q then p else f, s, q);
    }
    SubFrame(u, t, p);
    SubFrame(u, t, f);
  }

  /** rmtree behind the phase marker, cut anywhere: one unit of work for each entry it removed. */
  lemma PruneStep(b: Disk, tx: Transaction, t: Disk, u: Disk, i: nat)
    requires Underway(b, tx, t) && IsDirectoryTarget(tx.plan, i) && PhasePath(tx, i) in t
    requires forall q | !(StagingPath(tx, i) <= q) :: Get(u, q) == Get(t, q)
    requires Remains(Sub(u, StagingPath(tx, i)), Sub(t, StagingPath(tx, i)))
    ensures Underway(b, tx, u)
    ensures WorkLeft(tx, u) + |Sub(t, StagingPath(tx, i))| == WorkLeft(tx, t) + |Sub(u, StagingPath(tx, i))|
    ensures ViewOf(tx, u, i) == ViewOf(tx, t, i).(staged := Sub(u, StagingPath(tx, i)))
  {
    var v := ViewOf(tx, t, i);
    RootOf(t, PhasePath(tx, i));
    assert v.phase != map[] && v.here == map[];
    PrunedView(tx, t, u, i);
    RemainsTransitive(Sub(u, StagingPath(tx, i)), v.staged, Sub(b, tx.plan.targets[i].path));
    StepDone(b, tx, t, u, i);
  }

  lemma LoneNodeRemoved(t: Disk, q: Path)
    requires Sub(t, q).Keys == {[]}
    ensures Sub(Removed(t, q), q) == map[]
  {
    assert q + [] == q && [] in Sub(t, q);
    RemovedSub(t, q, []);
    assert Sub(t, q) - {[]} == map[];
  }

  lemma PhaseConfined(tx: Transaction, t: Disk, i: nat)
    requires i < |tx.plan.targets|
    ensures Confined(tx, t, Removed(t, PhasePath(tx, i)), i)
  {
    assert Touches(tx, i, PhasePath(tx, i));
  }

  lemma PhaseDoneView(tx: Transaction, t: Disk, i: nat)
    requires ClearOfRoot(tx.plan) && i < |tx.plan.targets|
    requires Sub(t, PhasePath(tx, i)).Keys == {[]}
    ensures var u := Removed(t, PhasePath(tx, i));
      ViewOf(tx, u, i) == ViewOf(tx, t, i).(phase := map[]) && Confined(tx, t, u, i)
  {
    PhaseConfined(tx, t, i);
    TargetPathsApart(tx, i);
    LoneNodeRemoved(t, PhasePath(tx, i));
    RemovedFrame(t, PhasePath(tx, i), tx.plan.targets[i].path);
    RemovedFrame(t, PhasePath(tx, i), StagingPath(tx, i));
  }

  /** Removing the phase marker once its staging is gone. */
  lemma PhaseDoneStep(b: Disk, tx: Transaction, t: Disk, i: nat)
    requires Underway(b, tx, t) && IsDirectoryTarget(tx.plan, i)
    requires PhasePath(tx, i) in t && StagingPath(tx, i) !in t
    ensures var u := Removed(t, PhasePath(tx, i));
      && Underway(b, tx, u) && WorkLeft(tx, u) == WorkLeft(tx, t) - 1
      && ViewOf(tx, u, i) == View(map[], map[], map[])
  {
    var v := ViewOf(tx, t, i);
    RootOf(t, PhasePath(tx, i));
    RootOf(t, StagingPath(tx, i));
    assert v.phase.Keys == {[]} && v.here == map[] && v.staged == map[];
    PhaseDoneView(tx, t, i);
    StepDone(b, tx, t, Removed(t, PhasePath(tx, i)), i);
  }

  lemma FileConfined(tx: Transaction, t: Disk, i: nat)
    requires i < |tx.plan.targets|
    ensures Confined(tx, t, Removed(t, tx.plan.targets[i].path), i)
  {
  }

  lemma FileView(tx: Transaction, t: Disk, i: nat)
    requires ClearOfRoot(tx.plan) && i < |tx.plan.targets|
    requires Sub(t, tx.plan.targets[i].path).Keys == {[]}
    ensures var u := Removed(t, tx.plan.targets[i].path);
      ViewOf(tx, u, i) == ViewOf(tx, t, i).(here := map[]) && Confined(tx, t, u, i)
  {
    FileConfined(tx, t, i);
    TargetPathsApart(tx, i);
    LoneNodeRemoved(t, tx.plan.targets[i].path);
    RemovedFrame(t, tx.plan.targets[i].path, PhasePath(tx, i));
    RemovedFrame(t, tx.plan.targets[i].path, StagingPath(tx, i));
  }

  /** Unlinking a file target. */
  lemma FileStep(b: Disk, tx: Transaction, t: Disk, i: nat)
    requires Underway(b, tx, t) && i < |tx.plan.targets| && !IsDirectoryTarget(tx.plan, i)
    requires tx.plan.targets[i].path in t
    ensures var u := Removed(t, tx.plan.targets[i].path);
      && Underway(b, tx, u) && WorkLeft(tx, u) == WorkLeft(tx, t) - 1
      && ViewOf(tx, u, i) == View(map[], map[], map[])
  {
    var p := tx.plan.targets[i].path;
    RootOf(t, p);
    assert ViewOf(tx, t, i) == View(Sub(b, p), map[], map[]);
    assert ReviewedTarget(b, tx, i);
    FileAlone(b, p);
    FileView(tx, t, i);
    StepDone(b, tx, t, Removed(t, p), i);
  }

  lemma FileAlone(b: Disk, p: Path)
    requires WellFormed(b) && p in b && !b[p].kind.Directory?
    ensures Sub(b, p).Keys == {[]}
  {
    RootOf(b, p);
    forall r | r in Sub(b, p)
      ensures r == []
    {
      if r != [] {
        assert p < p + r;
        NothingBelowFile(b, p, p + r);
      }
    }
  }
}
