/**
 * The states a cleanup transaction passes through on disk, what the loader makes
 * of each, and the measure of the work left.
 */
module CleanupTransaction {
  import opened Wrappers
  import opened FileTree
  import opened CleanupNames
  import opened CleanupRecords

  // The loader

  datatype Loading = NoneFound | Pending(transaction: Transaction) | Rejected

  predicate MarkerOk(t: Disk, m: Path) {
    m in t && CleanupFile(t[m]) && t[m].mode == PRIVATE_FILE && t[m].kind.content.TransactionRecord?
  }

  predicate PhaseOk(t: Disk, tx: Transaction, i: nat)
    requires i in tx.directories
  {
    var phase, marker := PhasePath(tx, i), MarkerPath(tx);
    && phase in t && CleanupFile(t[phase])
    && marker in t && t[marker].kind.Regular?
    && t[phase].kind.content == PhaseFor(tx, i, t[marker].kind.content)
  }

  predicate ExpectedEntry(tx: Transaction, name: string) {
    || name == MarkerName(tx.plan.cycle)
    || exists i | i in tx.directories :: name == StagingName(tx.plan.cycle, i) || name == PhaseName(tx.plan.cycle, i)
  }

  /** The loader's first look at directory target `i`: phase, staging and target together. */
  predicate StagingOk(t: Disk, tx: Transaction, i: nat)
    requires i < |tx.plan.targets| && i in tx.directories
  {
    var target, state := tx.plan.targets[i], tx.directories[i];
    var staging, phase := StagingPath(tx, i), PhasePath(tx, i);
    && (phase in t ==> PhaseOk(t, tx, i) && target.path !in t)
    && (staging in t ==>
          && target.path !in t
          && if phase in t
             then OwnedDirectory(t[staging], target.kind != ArtifactTree) && t[staging].inode == state.inode
             else DirectoryOk(target.kind, Sub(t, staging), state))
  }

  predicate PresentTargetOk(t: Disk, tx: Transaction, i: nat)
    requires i < |tx.plan.targets| && i in tx.directories
  {
    var target := tx.plan.targets[i];
    target.path in t ==> DirectoryOk(target.kind, Sub(t, target.path), tx.directories[i])
  }

  predicate TransactionOk(t: Disk, marker: string, tx: Transaction) {
    && TransactionRecordOk(tx)
    && marker == MarkerName(tx.plan.cycle)
    && (forall n | n in Children(t, TRANSACTION_ROOT) :: ExpectedEntry(tx, n))
    && (forall i | i in tx.directories :: StagingOk(t, tx, i))
    && (forall i | i in tx.directories :: PresentTargetOk(t, tx, i))
  }

  predicate TransactionRootOk(t: Disk) {
    && TRANSACTION_ROOT in t
    && OwnedDirectory(t[TRANSACTION_ROOT], true)
    && t[TRANSACTION_ROOT].mode == PRIVATE_DIRECTORY
  }

  ghost function MarkerNames(t: Disk): set<string> {
    set n | n in Children(t, TRANSACTION_ROOT) && IsMarkerName(n)
  }

  /** What the loader returns: nothing pending, the one pending transaction, or an error. */
  ghost function Loaded(t: Disk): Loading {
    if TRANSACTION_ROOT !in t then NoneFound
    else if !TransactionRootOk(t) then Rejected
    else if Children(t, TRANSACTION_ROOT) == {} then NoneFound
    else if |MarkerNames(t)| != 1 then Rejected
    else
      var n :| n in MarkerNames(t);
      var marker := TRANSACTION_ROOT + [n];
      if !MarkerOk(t, marker) then Rejected
      else
        var tx := t[marker].kind.content.transaction;
        if TransactionOk(t, n, tx) then Pending(tx) else Rejected
  }

  // Plans the finisher can resume

  /** No target lies on or below another. */
  predicate PrefixFree(plan: Plan) {
    forall i, j | 0 <= i < |plan.targets| && 0 <= j < |plan.targets| && i != j ::
      !(plan.targets[i].path <= plan.targets[j].path)
  }

  /** No target is the transaction root, an ancestor of it or inside it. */
  predicate ClearOfRoot(plan: Plan) {
    forall i | 0 <= i < |plan.targets| ::
      !(plan.targets[i].path <= TRANSACTION_ROOT) && !(TRANSACTION_ROOT <= plan.targets[i].path)
  }

  predicate ReviewedTarget(b: Disk, tx: Transaction, i: nat)
    requires i < |tx.plan.targets|
  {
    var target := tx.plan.targets[i];
    && target.path in b
    && TargetOk(b, target)
    && if RemovesDirectory(target.kind)
       then i in tx.directories && DirectoryOk(target.kind, Sub(b, target.path), tx.directories[i])
       else b[target.path].kind.Regular?
  }

  /** `b` is the disk a transaction is published on: every target as reviewed, nothing pending. */
  ghost predicate Reviewed(b: Disk, tx: Transaction) {
    && TransactionRecordOk(tx)
    && PrefixFree(tx.plan)
    && ClearOfRoot(tx.plan)
    && WellFormed(b)
    && TransactionRootOk(b)
    && (forall q | q in b :: !(TRANSACTION_ROOT < q))
    && (forall i | 0 <= i < |tx.plan.targets| :: ReviewedTarget(b, tx, i))
  }

  // The states of a run

  /** The paths target `i` owns: its own subtree, its staging and its phase. */
  predicate Touches(tx: Transaction, i: nat, q: Path)
    requires i < |tx.plan.targets|
  {
    tx.plan.targets[i].path <= q || StagingPath(tx, i) <= q || PhasePath(tx, i) <= q
  }

  predicate Outside(tx: Transaction, q: Path) {
    && !(MarkerPath(tx) <= q)
    && forall i | 0 <= i < |tx.plan.targets| :: !Touches(tx, i, q)
  }

  /** What a transaction sees of one target: its subtree, its staging and its phase file. */
  datatype View = View(here: Disk, staged: Disk, phase: Disk)

  function ViewOf(tx: Transaction, t: Disk, i: nat): View
    requires i < |tx.plan.targets|
  {
    View(Sub(t, tx.plan.targets[i].path), Sub(t, StagingPath(tx, i)), Sub(t, PhasePath(tx, i)))
  }

  /** What rmtree can leave of `full`: nothing, or a part that still has its root. */
  ghost predicate Remains(m: Disk, full: Disk) {
    m == map[] || ([] in m && forall r | r in m :: r in full && m[r] == full[r])
  }

  ghost predicate PhaseFile(tx: Transaction, i: nat, phase: Disk)
    requires i in tx.directories
  {
    && phase.Keys == {[]}
    && CleanupFile(phase[[]])
    && phase[[]].kind.content == PhaseFor(tx, i, TransactionRecord(tx))
  }

  /**
   * Target `i`, whose reviewed subtree is `full`, is untouched, staged, partly
   * deleted behind its phase, or gone.
   */
  ghost predicate TargetState(full: Disk, tx: Transaction, i: nat, v: View) {
    && (v.here == full || v.here == map[])
    && if IsDirectoryTarget(tx.plan, i) && i in tx.directories then
         || (v.phase == map[] && v.staged == map[])
         || (v.phase == map[] && v.here == map[] && v.staged == full)
         || (PhaseFile(tx, i, v.phase) && v.here == map[] && Remains(v.staged, full))
       else
         v.staged == map[] && v.phase == map[]
  }

  ghost predicate MarkerState(tx: Transaction, m: Disk) {
    && m.Keys == {[]}
    && CleanupFile(m[[]]) && m[[]].mode == PRIVATE_FILE
    && m[[]].kind.content == TransactionRecord(tx)
  }

  /** The invariant of every run from the publication of `tx` on `b`. */
  ghost predicate Underway(b: Disk, tx: Transaction, t: Disk) {
    && Reviewed(b, tx)
    && MarkerState(tx, Sub(t, MarkerPath(tx)))
    && (forall i | 0 <= i < |tx.plan.targets| ::
          TargetState(Sub(b, tx.plan.targets[i].path), tx, i, ViewOf(tx, t, i)))
    && (forall q | Outside(tx, q) :: Get(t, q) == Get(b, q))
  }

  /** The disk once the transaction is over: `b` without its targets. */
  ghost predicate Finished(b: Disk, tx: Transaction, t: Disk) {
    forall q :: Get(t, q) ==
      if exists i | 0 <= i < |tx.plan.targets| :: tx.plan.targets[i].path <= q then None else Get(b, q)
  }

  // Where each path belongs

  lemma RootIsSeparate(plan: Plan, i: nat, q: Path)
    requires ClearOfRoot(plan) && i < |plan.targets|
    requires TRANSACTION_ROOT <= q
    ensures !(plan.targets[i].path <= q)
  {
    if plan.targets[i].path <= q {
      PrefixesNest(TRANSACTION_ROOT, plan.targets[i].path, q);
    }
  }

  lemma BookkeepingDistinct(tx: Transaction, i: nat, j: nat)
    ensures StagingPath(tx, i) == StagingPath(tx, j) ==> i == j
    ensures PhasePath(tx, i) == PhasePath(tx, j) ==> i == j
    ensures StagingPath(tx, i) != PhasePath(tx, j)
    ensures IsCycleName(tx.plan.cycle) ==> MarkerPath(tx) != StagingPath(tx, i) && MarkerPath(tx) != PhasePath(tx, i)
  {
    var cycle := tx.plan.cycle;
    NamesDistinct(cycle, i, j);
    assert StagingPath(tx, i)[1] == StagingName(cycle, i) && StagingPath(tx, j)[1] == StagingName(cycle, j);
    assert PhasePath(tx, i)[1] == PhaseName(cycle, i) && PhasePath(tx, j)[1] == PhaseName(cycle, j);
    if IsCycleName(cycle) {
      MarkerNameIsOne(cycle);
      assert MarkerPath(tx)[1] == MarkerName(cycle);
    }
  }

  /** Two targets never own the same path, and none owns the marker. */
  lemma RegionsDisjoint(tx: Transaction, i: nat, j: nat, q: Path)
    requires IsCycleName(tx.plan.cycle) && PrefixFree(tx.plan) && ClearOfRoot(tx.plan)
    requires i < |tx.plan.targets| && j < |tx.plan.targets|
    requires Touches(tx, i, q)
    ensures !(MarkerPath(tx) <= q)
    ensures i != j ==> !Touches(tx, j, q)
  {
    var p, r := tx.plan.targets[i].path, tx.plan.targets[j].path;
    BookkeepingDistinct(tx, i, j);
    BookkeepingDistinct(tx, j, i);
    if p <= q {
      if TRANSACTION_ROOT <= q {
        RootIsSeparate(tx.plan, i, q);
        assert false;
      }
      if r <= q {
        PrefixesNest(p, r, q);
      }
    } else {
      assert TRANSACTION_ROOT <= q;
      assert q[..2] == if StagingPath(tx, i) <= q then StagingPath(tx, i) else PhasePath(tx, i);
      RootIsSeparate(tx.plan, j, q);
    }
  }

  /** From `t` to `u` only paths of target `i` change. */
  ghost predicate Confined(tx: Transaction, t: Disk, u: Disk, i: nat)
    requires i < |tx.plan.targets|
  {
    forall q | !Touches(tx, i, q) :: Get(u, q) == Get(t, q)
  }

  lemma OtherViewKept(tx: Transaction, t: Disk, u: Disk, i: nat, j: nat)
    requires IsCycleName(tx.plan.cycle) && PrefixFree(tx.plan) && ClearOfRoot(tx.plan)
    requires i < |tx.plan.targets| && j < |tx.plan.targets| && i != j
    requires Confined(tx, t, u, i)
    ensures ViewOf(tx, u, j) == ViewOf(tx, t, j)
  {
    forall q | Touches(tx, j, q)
      ensures Get(t, q) == Get(u, q)
    {
      if Touches(tx, i, q) {
        RegionsDisjoint(tx, i, j, q);
      }
    }
    SubFrame(t, u, tx.plan.targets[j].path);
    SubFrame(t, u, StagingPath(tx, j));
    SubFrame(t, u, PhasePath(tx, j));
  }

  lemma OtherViewsKept(tx: Transaction, t: Disk, u: Disk, i: nat)
    requires IsCycleName(tx.plan.cycle) && PrefixFree(tx.plan) && ClearOfRoot(tx.plan)
    requires i < |tx.plan.targets| && Confined(tx, t, u, i)
    ensures forall j | 0 <= j < |tx.plan.targets| && j != i :: ViewOf(tx, u, j) == ViewOf(tx, t, j)
  {
    forall j | 0 <= j < |tx.plan.targets| && j != i
      ensures ViewOf(tx, u, j) == ViewOf(tx, t, j)
    {
      OtherViewKept(tx, t, u, i, j);
    }
  }

  lemma MarkerKept(tx: Transaction, t: Disk, u: Disk, i: nat)
    requires IsCycleName(tx.plan.cycle) && PrefixFree(tx.plan) && ClearOfRoot(tx.plan)
    requires i < |tx.plan.targets|
    requires Confined(tx, t, u, i)
    ensures Sub(u, MarkerPath(tx)) == Sub(t, MarkerPath(tx))
  {
    forall q | MarkerPath(tx) <= q
      ensures Get(t, q) == Get(u, q)
    {
      if Touches(tx, i, q) {
        RegionsDisjoint(tx, i, i, q);
      }
    }
    SubFrame(t, u, MarkerPath(tx));
  }

  /** A change confined to what target `i` owns leaves the rest of the invariant alone. */
  lemma StepFrame(b: Disk, tx: Transaction, t: Disk, u: Disk, i: nat)
    requires Underway(b, tx, t) && i < |tx.plan.targets|
    requires Confined(tx, t, u, i)
    requires TargetState(Sub(b, tx.plan.targets[i].path), tx, i, ViewOf(tx, u, i))
    ensures Underway(b, tx, u)
  {
    MarkerKept(tx, t, u, i);
    OtherViewsKept(tx, t, u, i);
  }

  lemma RootOf(t: Disk, p: Path)
    ensures p in t <==> [] in Sub(t, p)
    ensures p !in t && (Sub(t, p) == map[] || [] in Sub(t, p)) ==> Sub(t, p) == map[]
  {
    assert p + [] == p;
  }

  /** Deleting leaf first never leaves a part without its root. */
  lemma LeafRemains(t: Disk, p: Path, r: Path, full: Disk)
    requires IsLeaf(t, p + r) && Remains(Sub(t, p), full)
    ensures Remains(Sub(t, p) - {r}, full)
  {
    var m := Sub(t, p);
    assert r in m;
    if r == [] {
      assert p + r == p;
      forall x | x in m
        ensures x == []
      {
        assert x != [] ==> p < p + x;
      }
      assert m - {r} == map[];
    }
  }

  /** rmtree at `p`, cut somewhere: the rest of the disk stays, and what is left still has its root. */
  ghost predicate PartlyRemoved(t: Disk, u: Disk, p: Path) {
    && (forall q | !(p <= q) :: Get(u, q) == Get(t, q))
    && u.Keys <= t.Keys
    && Remains(Sub(u, p), Sub(t, p))
  }

  lemma RemovedSize(u: Disk, p: Path, r: Path)
    requires p + r in u
    ensures |Sub(Removed(u, p + r), p)| == |Sub(u, p)| - 1
  {
    RemovedSub(u, p, r);
    DropSize(Sub(u, p), r);
  }

  lemma RemovedRemains(t: Disk, u: Disk, p: Path, r: Path)
    requires Remains(Sub(u, p), Sub(t, p)) && IsLeaf(u, p + r)
    ensures Remains(Sub(Removed(u, p + r), p), Sub(t, p))
  {
    LeafRemains(u, p, r, Sub(t, p));
    RemovedSub(u, p, r);
  }

  lemma RemovedElsewhere(t: Disk, u: Disk, p: Path, r: Path)
    requires (forall q | !(p <= q) :: Get(u, q) == Get(t, q)) && u.Keys <= t.Keys
    ensures forall q | !(p <= q) :: Get(Removed(u, p + r), q) == Get(t, q)
    ensures Removed(u, p + r).Keys <= t.Keys
  {
    assert p <= p + r;
  }

  lemma PartlyRemovedNext(t: Disk, u: Disk, p: Path, r: Path)
    requires PartlyRemoved(t, u, p) && IsLeaf(u, p + r)
    ensures PartlyRemoved(t, Removed(u, p + r), p)
    ensures |Sub(Removed(u, p + r), p)| == |Sub(u, p)| - 1
  {
    RemovedElsewhere(t, u, p, r);
    RemovedRemains(t, u, p, r);
    RemovedSize(u, p, r);
  }

  lemma NothingLeft(t: Disk, p: Path)
    requires forall q | q in t :: !(p <= q)
    ensures Sub(t, p) == map[]
  {
    forall x
      ensures x !in Sub(t, p)
    {
      assert p <= p + x;
    }
  }
}
