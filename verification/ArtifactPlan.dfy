/**
 * Which nodes the planner collects, said of each path by itself: the first of its
 * ancestors that is not a structural parent decides.
 */
module ArtifactPlan {
  import opened Wrappers
  import opened FileTree
  import opened CleanupNames
  import opened CleanupRecords
  import opened ArtifactPolicy

  datatype Class = Kept | Protected | Structural | Candidate

  /**
   * What the planner goes by: the policy in a scope, the paths runtime owners
   * protect, and what `close_blockers` finds standing in the way of a close.
   */
  datatype Rules = Rules(policy: Policy, scope: Scope, protected: set<Path>, closeBlockers: set<Path>)
  {
    function Keep(): set<Path> {
      policy.Keep(scope)
    }
  }

  /** `protections` always covers the transaction root, and only paths below the state root. */
  predicate RulesOk(rules: Rules) {
    PolicyOk(rules.policy) && TRANSACTION_ROOT in rules.protected && [] !in rules.protected
  }

  lemma KeepBelowRoot(rules: Rules)
    requires RulesOk(rules)
    ensures [] !in rules.Keep()
  {
    assert rules.Keep() <= rules.policy.Everything();
  }

  /** The branches of `visit`, in their order. */
  function Classify(rules: Rules, p: Path): Class {
    if p in rules.Keep() then Kept
    else if exists k | k in rules.protected :: k <= p then Protected
    else if p in rules.policy.containers || exists k | k in rules.protected :: p < k then Structural
    else Candidate
  }

  /** The walk gets to `p`: all its proper ancestors below the root are structural. */
  ghost predicate Reached(rules: Rules, p: Path) {
    p != [] && forall a | a != [] && a < p :: Classify(rules, a) == Structural
  }

  /** A path at which the walk stops because nothing keeps, protects or opens it. */
  ghost predicate Disposable(rules: Rules, p: Path) {
    Reached(rules, p) && Classify(rules, p) == Candidate
  }

  /** A disposable node that can be fingerprinted becomes a target; any other is reported as blocked. */
  predicate Collectable(t: Disk, p: Path) {
    ParentsOk(t, p) && ArtifactFingerprint(Sub(t, p)).Some?
  }

  ghost predicate IsTarget(t: Disk, rules: Rules, p: Path) {
    p in t && Disposable(rules, p) && Collectable(t, p)
  }

  ghost predicate IsBlocked(t: Disk, rules: Rules, p: Path) {
    p in t && Disposable(rules, p) && !Collectable(t, p)
  }

  /** The walk meets no reason to give up at `p`: a kept link, or a structural path that is no private directory. */
  predicate Walkable(t: Disk, rules: Rules, p: Path)
    requires p in t
  {
    match Classify(rules, p)
    case Kept => !t[p].kind.Symlink?
    case Structural => OwnedDirectory(t[p], true)
    case _ => true
  }

  ghost predicate WalkSucceeds(t: Disk, rules: Rules) {
    && [] in t && OwnedDirectory(t[[]], true)
    && forall p | p in t && Reached(rules, p) :: Walkable(t, rules, p)
  }

  function TargetAt(t: Disk, p: Path): Target
    requires p in t && Collectable(t, p)
  {
    Target(if t[p].kind.Directory? then ArtifactTree else ArtifactFile, p, ArtifactFingerprint(Sub(t, p)).value)
  }

  // Properties of the collected set

  lemma KeptHasStructuralParents(rules: Rules, p: Path, k: Path)
    requires RulesOk(rules) && p != []
    ensures k in rules.Keep() && p < k ==> p in rules.policy.containers
  {
    if k in rules.Keep() && p < k {
      assert k in rules.policy.Everything() && p == k[..|p|];
    }
  }

  /** Nothing disposable overlaps a kept or protected path, or is a structural parent. */
  lemma DisposableIsClear(rules: Rules, p: Path, k: Path)
    requires RulesOk(rules) && Disposable(rules, p)
    requires k in rules.Keep() || k in rules.protected
    ensures !Overlaps(p, k) && p !in rules.policy.containers
  {
    KeepBelowRoot(rules);
    assert Classify(rules, k) != Structural;
    KeptHasStructuralParents(rules, p, k);
  }

  /** Two disposable paths never overlap. */
  lemma DisposablesApart(rules: Rules, p: Path, q: Path)
    requires Disposable(rules, p) && Disposable(rules, q) && p != q
    ensures !Overlaps(p, q)
  {
  }

  /** The first ancestor of `p`, itself included, that is not structural. */
  function Owner(rules: Rules, p: Path): (r: Option<Path>)
    ensures r.Some? ==> r.value <= p && r.value != [] && Classify(rules, r.value) != Structural
    ensures r.Some? ==> forall a | a != [] && a < r.value :: Classify(rules, a) == Structural
    ensures r.None? ==> forall a | a != [] && a <= p :: Classify(rules, a) == Structural
  {
    if p == [] then None
    else
      var above := Owner(rules, Parent(p));
      if above.Some? then above
      else if Classify(rules, p) == Structural then
        assert forall a | a != [] && a <= p :: Classify(rules, a) == Structural by {
          forall a | a != [] && a <= p ensures Classify(rules, a) == Structural {
            assert a != p ==> a <= Parent(p);
          }
        }
        None
      else
        assert forall a | a != [] && a < p :: Classify(rules, a) == Structural by {
          forall a | a != [] && a < p ensures Classify(rules, a) == Structural {
            assert a <= Parent(p);
          }
        }
        Some(p)
  }

  /**
   * A partition: every node below the root is structural, or lies at or below
   * exactly one path at which the walk stops, and that path is kept, protected, a
   * target or blocked.
   */
  lemma {:induction false} Partition(t: Disk, rules: Rules, q: Path)
    requires WellFormed(t) && q in t && q != []
    ensures Owner(rules, q).None? ==> Reached(rules, q) && Classify(rules, q) == Structural
    ensures Owner(rules, q).Some? ==>
      var o := Owner(rules, q).value;
      && o in t && o <= q && Reached(rules, o) && Classify(rules, o) != Structural
      && (Classify(rules, o) == Candidate ==> IsTarget(t, rules, o) != IsBlocked(t, rules, o))
    ensures forall o | o <= q && Reached(rules, o) && Classify(rules, o) != Structural ::
      Owner(rules, q) == Some(o)
  {
    if Owner(rules, q).Some? {
      AncestorPresent(t, Owner(rules, q).value, q);
    }
    forall o | o <= q && Reached(rules, o) && Classify(rules, o) != Structural
      ensures Owner(rules, q) == Some(o)
    {
      assert Owner(rules, q).Some?;
      var first := Owner(rules, q).value;
      PrefixesNest(o, first, q);
      assert first < o ==> Classify(rules, first) == Structural;
      assert o < first ==> Classify(rules, o) == Structural;
      assert o <= first ==> o == first || o < first;
      assert first <= o ==> o == first || first < o;
    }
  }

  lemma AncestorPresent(t: Disk, a: Path, q: Path)
    requires WellFormed(t) && q in t && a <= q
    ensures a in t
    decreases |q|
  {
    if a != q {
      AncestorPresent(t, a, Parent(q));
    }
  }

  /** What a kept or protected path covers is under no target and not blocked. */
  lemma RetainedIsSafe(t: Disk, rules: Rules, p: Path, q: Path, k: Path)
    requires RulesOk(rules) && Disposable(rules, p)
    requires k in rules.Keep() || k in rules.protected
    requires k <= q
    ensures !(p <= q)
  {
    DisposableIsClear(rules, p, k);
    if p <= q {
      PrefixesNest(p, k, q);
    }
  }

  // The plan

  function Insert(x: Target, s: seq<Target>): (r: seq<Target>)
    ensures multiset(r) == multiset{x} + multiset(s)
  {
    if s == [] then [x]
    else if StringLess(Posix(x.path), Posix(s[0].path)) then [x] + s
    else
      assert s == [s[0]] + s[1..];
      [s[0]] + Insert(x, s[1..])
  }

  /** Targets in the order of their path text. */
  function SortTargets(s: seq<Target>): (r: seq<Target>)
    ensures multiset(r) == multiset(s)
  {
    if s == [] then []
    else
      assert s == [s[0]] + s[1..];
      Insert(s[0], SortTargets(s[1..]))
  }

  lemma {:induction false} StringLessTransitive(a: string, b: string, c: string)
    requires StringLess(a, b) && StringLess(b, c)
    ensures StringLess(a, c)
  {
    if a != "" && a[0] == b[0] == c[0] {
      StringLessTransitive(a[1..], b[1..], c[1..]);
    }
  }

  /** No target of `s` comes before `y`. */
  ghost predicate NoneBefore(y: Target, s: seq<Target>) {
    forall z | z in s :: !StringLess(Posix(z.path), Posix(y.path))
  }

  lemma ConsCanonical(y: Target, s: seq<Target>)
    requires Canonical(s) && NoneBefore(y, s)
    ensures Canonical([y] + s)
  {
    var r := [y] + s;
    forall i, j | 0 <= i < j < |r|
      ensures !StringLess(Posix(r[j].path), Posix(r[i].path))
    {
      assert r[j] == s[j - 1] && s[j - 1] in s;
      assert i > 0 ==> r[i] == s[i - 1];
    }
  }

  lemma FirstIsLeast(s: seq<Target>)
    requires s != [] && Canonical(s)
    ensures Canonical(s[1..]) && NoneBefore(s[0], s[1..])
  {
    assert forall k | 0 <= k < |s| - 1 :: s[1..][k] == s[k + 1];
  }

  lemma BeforeAll(x: Target, s: seq<Target>)
    requires s != [] && NoneBefore(s[0], s[1..]) && StringLess(Posix(x.path), Posix(s[0].path))
    ensures NoneBefore(x, s)
  {
    forall z | z in s
      ensures !StringLess(Posix(z.path), Posix(x.path))
    {
      assert z == s[0] || z in s[1..];
      StringLessAsymmetric(Posix(x.path), Posix(s[0].path));
      if StringLess(Posix(z.path), Posix(x.path)) {
        StringLessTransitive(Posix(z.path), Posix(x.path), Posix(s[0].path));
      }
    }
  }

  lemma {:induction false} InsertMembers(x: Target, s: seq<Target>, z: Target)
    ensures z in Insert(x, s) <==> z == x || z in s
  {
    assert z in Insert(x, s) <==> z in multiset(Insert(x, s));
  }

  lemma {:induction false} InsertCanonical(x: Target, s: seq<Target>)
    requires Canonical(s)
    ensures Canonical(Insert(x, s))
  {
    if s != [] {
      FirstIsLeast(s);
      if StringLess(Posix(x.path), Posix(s[0].path)) {
        BeforeAll(x, s);
        ConsCanonical(x, s);
      } else {
        InsertCanonical(x, s[1..]);
        forall z | z in Insert(x, s[1..])
          ensures !StringLess(Posix(z.path), Posix(s[0].path))
        {
          InsertMembers(x, s[1..], z);
        }
        ConsCanonical(s[0], Insert(x, s[1..]));
      }
    }
  }

  lemma {:induction false} SortCanonical(s: seq<Target>)
    ensures Canonical(SortTargets(s))
  {
    if s != [] {
      SortCanonical(s[1..]);
      InsertCanonical(s[0], SortTargets(s[1..]));
    }
  }

  // The order leaves no choice

  lemma {:induction false} StringLessTotal(a: string, b: string)
    ensures StringLess(a, b) || StringLess(b, a) || a == b
  {
    if a != "" && b != "" && a[0] == b[0] {
      StringLessTotal(a[1..], b[1..]);
    }
  }

  /** Names without a slash can be read back from the text of the path. */
  lemma {:induction false} PosixInjective(p: Path, q: Path)
    requires NormalizedPath(p) && NormalizedPath(q) && Posix(p) == Posix(q)
    ensures p == q
  {
    var a, b := p[0], q[0];
    SlashAt(p);
    SlashAt(q);
    if |a| < |b| {
      SlashInside(Posix(p), a, b);
    } else if |b| < |a| {
      SlashInside(Posix(p), b, a);
    }
    assert a == Posix(p)[..|a|] == b;
    if |p| > 1 {
      assert Posix(p[1..]) == Posix(p)[|a| + 1..] == Posix(q)[|a| + 1..] == Posix(q[1..]);
      PosixInjective(p[1..], q[1..]);
    }
  }

  lemma SlashInside(t: string, a: string, b: string)
    requires b <= t && |a| < |b| && t[|a|] == '/'
    ensures '/' in b
  {
    assert b[|a|] == '/';
  }

  lemma {:induction false} SlashAt(p: Path)
    requires NormalizedPath(p)
    ensures p[0] <= Posix(p) && '/' !in p[0]
    ensures if |p| == 1 then Posix(p) == p[0]
            else |Posix(p)| > |p[0]| && Posix(p)[|p[0]|] == '/' && Posix(p)[|p[0]| + 1..] == Posix(p[1..])
    ensures |p| > 1 ==> NormalizedPath(p[1..])
  {
    assert p[0] in p;
  }

  /** Two lists of the same targets, each once and in canonical order, are one. */
  lemma {:induction false} CanonicalOnce(s: seq<Target>, r: seq<Target>)
    requires Canonical(s) && Canonical(r) && DistinctPaths(s) && DistinctPaths(r)
    requires (forall x :: x in s <==> x in r) && forall x | x in s :: NormalizedPath(x.path)
    ensures s == r
  {
    assert forall k | 0 <= k < |r| :: r[k] in s;
    assert forall k | 0 <= k < |s| :: s[k] in r;
    if s != [] {
      assert s[0] in s && s[0] in r;
      SameFirst(s, r);
      FirstIsLeast(s);
      FirstIsLeast(r);
      forall x
        ensures x in s[1..] <==> x in r[1..]
      {
        TailMembers(s, x);
        TailMembers(r, x);
      }
      forall x | x in s[1..]
        ensures NormalizedPath(x.path)
      {
        assert x in s;
      }
      CanonicalOnce(s[1..], r[1..]);
      assert s == [s[0]] + s[1..] && r == [r[0]] + r[1..];
    }
  }

  lemma TailMembers(s: seq<Target>, x: Target)
    requires s != [] && DistinctPaths(s)
    ensures x in s[1..] <==> x in s && x != s[0]
    ensures DistinctPaths(s[1..])
  {
  }

  lemma SameFirst(s: seq<Target>, r: seq<Target>)
    requires s != [] && r != [] && Canonical(s) && Canonical(r) && DistinctPaths(r)
    requires s[0] in r && r[0] in s && NormalizedPath(s[0].path) && NormalizedPath(r[0].path)
    ensures s[0] == r[0]
  {
    var k :| 0 <= k < |r| && r[k] == s[0];
    var m :| 0 <= m < |s| && s[m] == r[0];
    if k > 0 && m > 0 {
      StringLessTotal(Posix(s[0].path), Posix(r[0].path));
      PosixInjective(s[0].path, r[0].path);
    }
  }
}
