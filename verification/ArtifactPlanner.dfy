/** The planner's walk over the state root, proved to collect exactly the nodes `ArtifactPlan` describes. */
module ArtifactPlanner {
  import opened FileTree
  import opened CleanupRecords
  import opened ArtifactPlan

  function PathsOf(s: seq<Target>): set<Path> {
    set x | x in s :: x.path
  }

  function AtOrBelow(t: Disk, p: Path): set<Path> {
    set q | q in t && p <= q
  }

  function Below(t: Disk, p: Path): set<Path> {
    set q | q in t && p < q
  }

  /** The nodes below `p` that lie at or below one of its children in `names`. */
  function Through(t: Disk, p: Path, names: set<string>): set<Path> {
    set q | q in t && p < q && q[|p|] in names
  }

  ghost function TargetsIn(t: Disk, rules: Rules, area: set<Path>): set<Path> {
    set q | q in area && IsTarget(t, rules, q)
  }

  ghost function BlockedIn(t: Disk, rules: Rules, area: set<Path>): set<Path> {
    set q | q in area && IsBlocked(t, rules, q)
  }

  ghost predicate WalkableIn(t: Disk, rules: Rules, area: set<Path>) {
    forall q | q in area && q in t && Reached(rules, q) :: Walkable(t, rules, q)
  }

  // What a step of the walk adds

  /** Where the walk stops, nothing below is reached. */
  lemma StopsAt(t: Disk, rules: Rules, p: Path, area: set<Path>)
    requires p in t && Reached(rules, p) && Classify(rules, p) != Structural
    ensures TargetsIn(t, rules, area + AtOrBelow(t, p)) ==
      TargetsIn(t, rules, area) + if IsTarget(t, rules, p) then {p} else {}
    ensures BlockedIn(t, rules, area + AtOrBelow(t, p)) ==
      BlockedIn(t, rules, area) + if IsBlocked(t, rules, p) then {p} else {}
    ensures WalkableIn(t, rules, AtOrBelow(t, p)) <==> Walkable(t, rules, p)
  {
    assert forall q | q in AtOrBelow(t, p) && q != p :: !Reached(rules, q);
    assert p in AtOrBelow(t, p);
  }

  /** A structural path is neither a target nor blocked. */
  lemma OpensAt(t: Disk, rules: Rules, p: Path, area: set<Path>)
    requires p in t && Reached(rules, p) && Classify(rules, p) == Structural
    ensures TargetsIn(t, rules, area + AtOrBelow(t, p)) == TargetsIn(t, rules, area + Below(t, p))
    ensures BlockedIn(t, rules, area + AtOrBelow(t, p)) == BlockedIn(t, rules, area + Below(t, p))
    ensures WalkableIn(t, rules, AtOrBelow(t, p)) <==> OwnedDirectory(t[p], true) && WalkableIn(t, rules, Below(t, p))
  {
    forall q | q in AtOrBelow(t, p)
      ensures q == p || q in Below(t, p)
    {
      assert p <= q && p != q ==> p < q;
    }
    assert AtOrBelow(t, p) == Below(t, p) + {p};
  }

  lemma ChildReached(rules: Rules, p: Path, n: string)
    requires p == [] || (Reached(rules, p) && Classify(rules, p) == Structural)
    ensures Reached(rules, p + [n])
  {
    forall a | a != [] && a < p + [n]
      ensures Classify(rules, a) == Structural
    {
      assert a == (p + [n])[..|a|] == p[..|a|];
      assert a == p || a < p;
    }
  }

  lemma ChildAdded(t: Disk, p: Path, n: string, names: set<string>)
    requires p + [n] in t && n !in names
    ensures Through(t, p, names + {n}) == Through(t, p, names) + AtOrBelow(t, p + [n])
    ensures Through(t, p, names) !! AtOrBelow(t, p + [n])
    ensures AtOrBelow(t, p + [n]) < AtOrBelow(t, p) || p !in t
  {
    forall q: Path
      ensures p < q && q[|p|] == n <==> p + [n] <= q
    {
      if p < q && q[|p|] == n {
        assert q[..|p| + 1] == p + [n];
      }
      if p + [n] <= q {
        assert q[..|p|] == p && q[|p|] == (p + [n])[|p|];
      }
    }
    if p in t {
      assert p in AtOrBelow(t, p) && p !in AtOrBelow(t, p + [n]);
    }
  }

  lemma AreasApart(t: Disk, p: Path, n: string, names: set<string>, area: set<Path>)
    requires p + [n] in t && n !in names && area !! Below(t, p)
    ensures area + Through(t, p, names) !! AtOrBelow(t, p + [n])
    ensures area + Through(t, p, names + {n}) == area + Through(t, p, names) + AtOrBelow(t, p + [n])
    ensures AtOrBelow(t, p + [n]) <= Below(t, p)
  {
    ChildAdded(t, p, n, names);
    forall q | q in AtOrBelow(t, p + [n])
      ensures q in Below(t, p)
    {
      assert p < p + [n] <= q;
    }
  }

  /** One more child can be walked: so can all of them so far; when it cannot, nor can the directory. */
  lemma ChildWalked(t: Disk, rules: Rules, p: Path, n: string, names: set<string>)
    requires p + [n] in t && n !in names
    ensures WalkableIn(t, rules, Through(t, p, names)) && WalkableIn(t, rules, AtOrBelow(t, p + [n])) ==>
      WalkableIn(t, rules, Through(t, p, names + {n}))
    ensures WalkableIn(t, rules, Below(t, p)) ==> WalkableIn(t, rules, AtOrBelow(t, p + [n]))
  {
    ChildAdded(t, p, n, names);
    AreasApart(t, p, n, names, {});
  }

  /** Whatever is in the tree, its ancestors are. */
  ghost predicate Rooted(t: Disk) {
    forall p: Path, n: string | p + [n] in t :: p in t
  }

  lemma WellFormedIsRooted(t: Disk)
    requires WellFormed(t)
    ensures Rooted(t)
  {
    forall p: Path, n: string | p + [n] in t
      ensures p in t
    {
      assert Parent(p + [n]) == p;
    }
  }

  lemma {:induction false} AncestorIn(t: Disk, a: Path, q: Path)
    requires Rooted(t) && q in t && a <= q
    ensures a in t
    decreases |q|
  {
    if a != q {
      assert Parent(q) + [q[|q| - 1]] == q;
      AncestorIn(t, a, Parent(q));
    }
  }

  lemma ChildOf(t: Disk, p: Path, q: Path)
    requires Rooted(t) && q in t && p < q
    ensures q[|p|] in Children(t, p)
  {
    AncestorIn(t, q[..|p| + 1], q);
    assert q[..|p| + 1] == p + [q[|p|]];
  }

  lemma AllChildren(t: Disk, p: Path)
    requires Rooted(t) && p in t
    ensures Through(t, p, Children(t, p)) == Below(t, p)
  {
    forall q | q in t && p < q
      ensures q[|p|] in Children(t, p)
    {
      ChildOf(t, p, q);
    }
  }

  lemma AddedPath(s: seq<Target>, x: Target)
    requires DistinctPaths(s) && x.path !in PathsOf(s)
    ensures DistinctPaths(s + [x]) && PathsOf(s + [x]) == PathsOf(s) + {x.path}
  {
    forall i | 0 <= i < |s|
      ensures s[i].path in PathsOf(s)
    {
      assert s[i] in s;
    }
    forall y | y in s + [x]
      ensures y in s || y == x
    {
    }
    assert x in s + [x];
    assert forall y | y in s :: y in s + [x];
  }

  class Planner {
    const disk: Disk
    const rules: Rules
    var targets: seq<Target>
    var blocked: set<Path>

    constructor (disk: Disk, rules: Rules)
      ensures this.disk == disk && this.rules == rules && Collected({})
    {
      this.disk := disk;
      this.rules := rules;
      targets := [];
      blocked := {};
    }

    /** What has been collected is exactly what lies in `area`, each target once. */
    ghost predicate Collected(area: set<Path>)
      reads this
    {
      && DistinctPaths(targets)
      && PathsOf(targets) == TargetsIn(disk, rules, area)
      && (forall x | x in targets :: x.path in disk && Collectable(disk, x.path) && x == TargetAt(disk, x.path))
      && blocked == BlockedIn(disk, rules, area)
    }

    /** `visit`: everything at or below `p` is added, or the walk gives up. */
    method Visit(p: Path, ghost area: set<Path>) returns (ok: bool)
      requires Rooted(disk) && p in disk && Reached(rules, p)
      requires Collected(area) && area !! AtOrBelow(disk, p)
      modifies this
      ensures ok <==> WalkableIn(disk, rules, AtOrBelow(disk, p))
      ensures ok ==> Collected(area + AtOrBelow(disk, p))
      decreases AtOrBelow(disk, p), 1
    {
      match Classify(rules, p)
      case Kept =>
        StopsAt(disk, rules, p, area);
        return !disk[p].kind.Symlink?;
      case Protected =>
        StopsAt(disk, rules, p, area);
        return true;
      case Structural =>
        ok := VisitChildren(p, area);
        OpensAt(disk, rules, p, area);
      case Candidate =>
        Collect(p, area);
        return true;
    }

    /** A path nothing keeps becomes a target, or is blocked when it cannot be fingerprinted. */
    method Collect(p: Path, ghost area: set<Path>)
      requires p in disk && Disposable(rules, p)
      requires Collected(area) && area !! AtOrBelow(disk, p)
      modifies this
      ensures Collected(area + AtOrBelow(disk, p)) && WalkableIn(disk, rules, AtOrBelow(disk, p))
    {
      StopsAt(disk, rules, p, area);
      if Collectable(disk, p) {
        assert p in AtOrBelow(disk, p) && p !in PathsOf(targets);
        AddedPath(targets, TargetAt(disk, p));
        targets := targets + [TargetAt(disk, p)];
      } else {
        blocked := blocked + {p};
      }
    }

    /** The children of a structural directory, in any order. */
    method VisitChildren(p: Path, ghost area: set<Path>) returns (ok: bool)
      requires Rooted(disk) && p in disk
      requires p == [] || (Reached(rules, p) && Classify(rules, p) == Structural)
      requires Collected(area) && area !! Below(disk, p)
      modifies this
      ensures ok <==> OwnedDirectory(disk[p], true) && WalkableIn(disk, rules, Below(disk, p))
      ensures ok ==> Collected(area + Below(disk, p))
      decreases AtOrBelow(disk, p), 0
    {
      if !OwnedDirectory(disk[p], true) {
        return false;
      }
      var todo := Children(disk, p);
      ghost var done: set<string> := {};
      assert area + Through(disk, p, {}) == area;
      while todo != {}
        invariant todo + done == Children(disk, p) && todo !! done
        invariant Collected(area + Through(disk, p, done)) && WalkableIn(disk, rules, Through(disk, p, done))
        decreases todo
      {
        var n :| n in todo;
        ChildReached(rules, p, n);
        ChildAdded(disk, p, n, done);
        AreasApart(disk, p, n, done, area);
        ChildWalked(disk, rules, p, n, done);
        ok := Visit(p + [n], area + Through(disk, p, done));
        if !ok {
          return;
        }
        todo, done := todo - {n}, done + {n};
      }
      assert done == Children(disk, p);
      AllChildren(disk, p);
      ok := true;
    }
  }
}
