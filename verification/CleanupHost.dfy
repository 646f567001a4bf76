/**
 * The disk a cleanup works on.  Each change is atomic, and `budget` is the number
 * of changes the process still makes before it dies; a crash can thus fall
 * between any two changes.
 */
module CleanupHost {
  import opened Wrappers
  import opened FileTree
  import opened CleanupRecords
  import opened CleanupTransaction

  /** rmtree at `p`, which began on `t` with budget `b`: each entry it removed cost one change. */
  ghost predicate Removing(t: Disk, b: nat, u: Disk, budget: nat, p: Path) {
    budget <= b && PartlyRemoved(t, u, p) && |Sub(u, p)| + b == |Sub(t, p)| + budget
  }

  lemma RemovingNext(t: Disk, b: nat, u: Disk, budget: nat, p: Path, q: Path)
    requires Removing(t, b, u, budget, p) && budget > 0 && p <= q && IsLeaf(u, q)
    ensures Removing(t, b, Removed(u, q), budget - 1, p)
    ensures |Sub(Removed(u, q), p)| < |Sub(u, p)|
  {
    assert q == p + q[|p|..];
    PartlyRemovedNext(t, u, p, q[|p|..]);
  }

  lemma SomeLeaf(t: Disk, p: Path)
    requires exists q | q in t :: p <= q
    ensures exists q :: q in t && p <= q && IsLeaf(t, q)
  {
    var some :| some in t && p <= some;
    var leaf := LeafExists(t, p, some);
  }

  class Host {
    var disk: Disk
    var budget: nat

    constructor (disk: Disk, budget: nat)
      ensures this.disk == disk && this.budget == budget
    {
      this.disk := disk;
      this.budget := budget;
    }

    /** rename_no_replace */
    method Rename(src: Path, dst: Path) returns (r: Outcome)
      modifies this
      ensures r.Fail? || r.Crash? ==> disk == old(disk) && budget == old(budget)
      ensures r.Crash? ==> budget == 0
      ensures r.Pass? ==> disk == Moved(old(disk), src, dst) && budget == old(budget) - 1
      ensures r.Fail? <==>
        !(src in old(disk) && dst !in old(disk) && !(src <= dst) && dst != [] && IsDirectory(old(disk), Parent(dst)))
    {
      if src !in disk || dst in disk || src <= dst || dst == [] || !IsDirectory(disk, Parent(dst)) {
        return Fail("cannot stage cycle cleanup directory");
      }
      if budget == 0 {
        return Crash;
      }
      disk, budget := Moved(disk, src, dst), budget - 1;
      return Pass;
    }

    /** publish_private_json: a complete private file, or nothing. */
    method Publish(path: Path, content: Content) returns (r: Outcome)
      modifies this
      ensures r.Fail? || r.Crash? ==> disk == old(disk) && budget == old(budget)
      ensures r.Crash? ==> budget == 0
      ensures r.Pass? ==>
        && budget == old(budget) - 1
        && path in disk && disk == old(disk)[path := disk[path]]
        && CleanupFile(disk[path]) && disk[path].mode == PRIVATE_FILE
        && disk[path].kind.content == content
      ensures r.Fail? <==> path in old(disk) || path == [] || !IsDirectory(old(disk), Parent(path))
    {
      if path in disk || path == [] || !IsDirectory(disk, Parent(path)) {
        return Fail("refusing to overwrite existing file");
      }
      if budget == 0 {
        return Crash;
      }
      var inode: nat := *;
      disk, budget := disk[path := Node(Regular(content), inode, PRIVATE_FILE, true)], budget - 1;
      return Pass;
    }

    method Unlink(path: Path) returns (r: Outcome)
      modifies this
      ensures r.Fail? || r.Crash? ==> disk == old(disk) && budget == old(budget)
      ensures r.Crash? ==> budget == 0
      ensures r.Pass? ==> disk == Removed(old(disk), path) && budget == old(budget) - 1
      ensures r.Fail? <==> path !in old(disk) || old(disk)[path].kind.Directory?
    {
      if path !in disk || disk[path].kind.Directory? {
        return Fail("cannot unlink");
      }
      if budget == 0 {
        return Crash;
      }
      disk, budget := Removed(disk, path), budget - 1;
      return Pass;
    }

    /** rmtree: one entry at a time, each with nothing left below it. */
    method RemoveTree(p: Path) returns (r: Outcome)
      modifies this
      ensures r.Fail? ==> disk == old(disk) && budget == old(budget)
      ensures r.Fail? <==> !IsDirectory(old(disk), p)
      ensures r.Crash? ==> budget == 0
      ensures budget <= old(budget)
      ensures !r.Fail? ==> PartlyRemoved(old(disk), disk, p)
      ensures !r.Fail? ==> |Sub(disk, p)| + old(budget) == |Sub(old(disk), p)| + budget
      ensures r.Pass? ==> Sub(disk, p) == map[]
    {
      if !IsDirectory(disk, p) {
        return Fail("not a directory");
      }
      RootOf(disk, p);
      ghost var t, b := disk, budget;
      while exists q | q in disk :: p <= q
        invariant Removing(t, b, disk, budget, p)
        decreases |Sub(disk, p)|
      {
        SomeLeaf(disk, p);
        var q :| q in disk && p <= q && IsLeaf(disk, q);
        if budget == 0 {
          return Crash;
        }
        RemovingNext(t, b, disk, budget, p, q);
        disk, budget := Removed(disk, q), budget - 1;
      }
      NothingLeft(disk, p);
      return Pass;
    }
  }
}
