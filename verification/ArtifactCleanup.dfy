/**
 * Planning and cleaning together: every plan the walk builds is one the cleanup
 * can finish, its check accepts the pending plan to the end, and planning again
 * afterwards finds nothing to remove.
 */
module ArtifactCleanup {
  import opened Wrappers
  import opened FileTree
  import opened CleanupNames
  import opened CleanupRecords
  import opened CleanupTransaction
  import opened CleanupWork
  import opened CleanupRuns
  import opened CleanupHost
  import opened CleanupFinisher
  import opened CleanupReview
  import opened Cleanup
  import opened CleanupPublication
  import opened ArtifactPolicy
  import opened ArtifactPlan
  import opened ArtifactPlanner

  /** What any real state root satisfies: a tree, with ordinary names and positive inodes. */
  ghost predicate RealDisk(t: Disk) {
    && WellFormed(t)
    && (forall p | p in t && p != [] :: NormalizedPath(p))
    && forall p | p in t :: t[p].inode > 0
  }

  ghost function AllTargets(t: Disk, rules: Rules): set<Path> {
    set q | q in t && IsTarget(t, rules, q)
  }

  /** What is reported as blocked: what could not be collected, and in a close whatever stands in its way. */
  ghost function AllBlocked(t: Disk, rules: Rules): set<Path> {
    (set q | q in t && IsBlocked(t, rules, q)) + if rules.scope == Close then rules.closeBlockers else {}
  }

  /** The plan of a disk: all its targets, each once, as they are now and in canonical order. */
  ghost predicate PlanOf(t: Disk, rules: Rules, plan: Plan) {
    && plan.cycle == rules.policy.Cycle(rules.scope)
    && DistinctPaths(plan.targets) && Canonical(plan.targets)
    && PathsOf(plan.targets) == AllTargets(t, rules)
    && forall x | x in plan.targets :: x.path in t && Collectable(t, x.path) && x == TargetAt(t, x.path)
  }

  datatype Inventory = Inventory(plan: Plan, blocked: set<Path>)

  /** inventory_locked */
  method TakeInventory(t: Disk, rules: Rules) returns (r: Result<Inventory, string>)
    requires WellFormed(t)
    ensures r.Ok? <==> WalkSucceeds(t, rules)
    ensures r.Ok? ==> PlanOf(t, rules, r.value.plan) && r.value.blocked == AllBlocked(t, rules)
  {
    WellFormedIsRooted(t);
    var planner := new Planner(t, rules);
    var ok := planner.VisitChildren([], {});
    assert forall q | q in t && Reached(rules, q) :: q in Below(t, []);
    if !ok {
      return Err("artifact structural directory is not a real owned directory");
    }
    assert {} + Below(t, []) == Below(t, []);
    var sorted := SortTargets(planner.targets);
    SortCanonical(planner.targets);
    SamePaths(planner.targets, sorted);
    assert forall x :: x in sorted <==> x in planner.targets;
    var blocked := planner.blocked;
    if rules.scope == Close {
      blocked := blocked + rules.closeBlockers;
    }
    return Ok(Inventory(Plan(rules.policy.Cycle(rules.scope), sorted), blocked));
  }

  /** A disk has one plan. */
  lemma OnePlan(t: Disk, rules: Rules, plan: Plan, other: Plan)
    requires RealDisk(t) && PlanOf(t, rules, plan) && PlanOf(t, rules, other)
    ensures plan == other
  {
    forall x
      ensures x in plan.targets <==> x in other.targets
      ensures x in plan.targets ==> NormalizedPath(x.path)
    {
      Listed(t, rules, plan, x);
      Listed(t, rules, other, x);
    }
    CanonicalOnce(plan.targets, other.targets);
  }

  lemma Listed(t: Disk, rules: Rules, plan: Plan, x: Target)
    requires PlanOf(t, rules, plan)
    ensures x in plan.targets <==> x.path in AllTargets(t, rules) && x == TargetAt(t, x.path)
  {
    if x.path in AllTargets(t, rules) && x == TargetAt(t, x.path) {
      assert x.path in PathsOf(plan.targets);
      var y :| y in plan.targets && y.path == x.path;
      assert y == TargetAt(t, x.path);
    }
    if x in plan.targets {
      assert x.path in PathsOf(plan.targets);
    }
  }

  lemma SamePaths(s: seq<Target>, r: seq<Target>)
    requires multiset(s) == multiset(r) && DistinctPaths(s)
    ensures PathsOf(r) == PathsOf(s) && DistinctPaths(r)
    ensures forall x :: x in r <==> x in s
  {
    assert forall x :: x in r <==> x in multiset(r);
    assert forall x :: x in s <==> x in multiset(s);
    forall i, j | 0 <= i < j < |r|
      ensures r[i].path != r[j].path
    {
      if r[i].path == r[j].path {
        SamePathSameTarget(s, r[i], r[j]);
        TwiceInSeq(r, i, j);
        OnceInSeq(s, r[i]);
      }
    }
  }

  lemma SamePathSameTarget(s: seq<Target>, x: Target, y: Target)
    requires DistinctPaths(s) && x in s && y in s && x.path == y.path
    ensures x == y
  {
    var i :| 0 <= i < |s| && s[i] == x;
    var j :| 0 <= j < |s| && s[j] == y;
    assert i == j;
  }

  lemma TwiceInSeq(r: seq<Target>, i: nat, j: nat)
    requires i < j < |r| && r[i] == r[j]
    ensures multiset(r)[r[i]] >= 2
  {
    assert r == r[..i] + [r[i]] + r[i + 1..j] + [r[j]] + r[j + 1..];
  }

  lemma {:induction false} OnceInSeq(s: seq<Target>, x: Target)
    requires DistinctPaths(s) && x in s
    ensures multiset(s)[x] == 1
  {
    var i :| 0 <= i < |s| && s[i] == x;
    assert s == s[..i] + [x] + s[i + 1..];
    assert x !in s[..i] && x !in s[i + 1..];
  }

  lemma CycleIsName(policy: Policy, scope: Scope)
    requires IsDigest(policy.digest)
    ensures IsCycleName(policy.Cycle(scope))
  {
    var head := if scope == Clean then "artifacts-" else "artifacts-close-";
    var s := head + policy.digest;
    forall k | 0 <= k < |s|
      ensures s[k] == if k < |head| then head[k] else policy.digest[k - |head|]
    {
    }
  }

  // Every plan can be finished

  /** The targets of a plan are apart from each other and from everything kept or protected. */
  lemma PlanIsSeparate(t: Disk, rules: Rules, plan: Plan)
    requires RulesOk(rules) && PlanOf(t, rules, plan)
    ensures Separate(plan)
    ensures forall x, k | x in plan.targets && (k in rules.Keep() || k in rules.protected) ::
      !Overlaps(x.path, k)
    ensures forall x | x in plan.targets :: x.path !in rules.policy.containers && Disposable(rules, x.path)
  {
    forall x | x in plan.targets
      ensures Disposable(rules, x.path)
    {
      assert x.path in PathsOf(plan.targets);
    }
    forall x, k | x in plan.targets && (k in rules.Keep() || k in rules.protected)
      ensures !Overlaps(x.path, k) && x.path !in rules.policy.containers
    {
      DisposableIsClear(rules, x.path, k);
    }
    assert TRANSACTION_ROOT in rules.protected;
    forall i, j | 0 <= i < |plan.targets| && 0 <= j < |plan.targets| && i != j
      ensures !(plan.targets[i].path <= plan.targets[j].path)
    {
      DisposablesApart(rules, plan.targets[i].path, plan.targets[j].path);
    }
  }

  /** A plan of a disk has its targets as they are there. */
  lemma PlanIsAsItIs(t: Disk, rules: Rules, plan: Plan)
    requires PlanOf(t, rules, plan)
    ensures PlanStateOk(t, plan, false)
  {
    forall i | 0 <= i < |plan.targets|
      ensures TargetStateOk(t, plan.targets[i], false)
    {
      assert plan.targets[i] in plan.targets && plan.targets[i] == TargetAt(t, plan.targets[i].path);
    }
  }

  /** Every non-empty plan of a real disk is in the state its removal starts from. */
  lemma PlanIsPlanned(t: Disk, rules: Rules, plan: Plan)
    requires RulesOk(rules) && RealDisk(t) && Loaded(t) == NoneFound
    requires PlanOf(t, rules, plan) && plan.targets != []
    ensures Planned(t, plan)
  {
    CycleIsName(rules.policy, rules.scope);
    forall i | 0 <= i < |plan.targets|
      ensures TargetStateOk(t, plan.targets[i], false)
      ensures NormalizedPath(plan.targets[i].path)
      ensures plan.targets[i].path in t && KindOk(plan.targets[i].kind, t[plan.targets[i].path])
    {
      var x := plan.targets[i];
      assert x in plan.targets && x == TargetAt(t, x.path);
      assert x.path in PathsOf(plan.targets);
      assert x.path + [] == x.path && Sub(t, x.path)[[]] == t[x.path];
    }
  }

  // The pending plan stays acceptable

  predicate TargetsAllowed(rules: Rules, plan: Plan) {
    forall x | x in plan.targets ::
      && x.path !in rules.policy.containers
      && (forall k | k in rules.Keep() :: !Overlaps(x.path, k))
      && (forall k | k in rules.protected :: !Overlaps(x.path, k))
      && (x.kind == ArtifactFile || x.kind == ArtifactTree)
  }

  /** validate_pending_policy */
  predicate PendingAccepted(t: Disk, rules: Rules, plan: Plan) {
    && plan.cycle == rules.policy.Cycle(rules.scope)
    && TargetsAllowed(rules, plan)
    && PlanStateOk(t, plan, true)
  }

  /** Under the same rules, the check accepts the pending plan in every state of its run. */
  lemma PendingStaysAccepted(t: Disk, rules: Rules, b: Disk, tx: Transaction, u: Disk)
    requires RulesOk(rules)
    requires PlanOf(t, rules, tx.plan) && Underway(b, tx, u)
    ensures PendingAccepted(u, rules, tx.plan)
  {
    PlanAllowed(t, rules, tx.plan);
    PlanAccepted(b, tx, u);
  }

  lemma PlanAllowed(t: Disk, rules: Rules, plan: Plan)
    requires RulesOk(rules) && PlanOf(t, rules, plan)
    ensures TargetsAllowed(rules, plan)
  {
    KeepBelowRoot(rules);
    PlanIsSeparate(t, rules, plan);
    forall x | x in plan.targets
      ensures x.kind == ArtifactFile || x.kind == ArtifactTree
    {
      assert x == TargetAt(t, x.path);
    }
  }

  // Planning again

  lemma UntouchedBelow(t: Disk, u: Disk, rules: Rules, plan: Plan, q: Path)
    requires RulesOk(rules) && PlanOf(t, rules, plan) && OnlyTargetsGone(t, u, plan)
    requires Disposable(rules, q) && forall x | x in plan.targets :: x.path != q
    ensures forall y | q <= y || y < q :: y == TRANSACTION_ROOT || Get(u, y) == Get(t, y)
  {
    forall y | (q <= y || y < q) && y != TRANSACTION_ROOT
      ensures Get(u, y) == Get(t, y)
    {
      forall i | 0 <= i < |plan.targets|
        ensures !(plan.targets[i].path <= y)
      {
        var p := plan.targets[i].path;
        assert plan.targets[i] in plan.targets && p in PathsOf(plan.targets);
        DisposablesApart(rules, p, q);
        if q <= y {
          ApartBelow(q, p, y);
        } else {
          assert p <= y ==> p <= q;
        }
      }
    }
  }

  /** Where nothing but the transaction root has changed, a path is collected as before. */
  lemma SameCollectable(t: Disk, u: Disk, rules: Rules, q: Path)
    requires RulesOk(rules) && Disposable(rules, q)
    requires forall y | q <= y || y < q :: y == TRANSACTION_ROOT || Get(u, y) == Get(t, y)
    ensures q in u <==> q in t
    ensures Collectable(u, q) <==> Collectable(t, q)
    ensures q in t && Collectable(t, q) ==> TargetAt(u, q) == TargetAt(t, q)
  {
    DisposableIsClear(rules, q, TRANSACTION_ROOT);
    forall y | q <= y
      ensures Get(u, y) == Get(t, y)
    {
      ApartBelow(q, TRANSACTION_ROOT, y);
    }
    assert Get(u, q) == Get(t, q);
    SubFrame(u, t, q);
    forall k | 0 <= k < |q|
      ensures Get(u, q[..k]) == Get(t, q[..k])
    {
      assert q[..k] < q;
    }
  }

  /** A walk that succeeded does so again: what it met is the same or gone, and the transaction root is in order. */
  lemma WalksAgain(t: Disk, u: Disk, rules: Rules)
    requires RulesOk(rules) && WalkSucceeds(t, rules) && !Loaded(u).Rejected?
    requires [] in u && u[[]] == t[[]]
    requires forall q | q != TRANSACTION_ROOT && q in u :: q in t && u[q] == t[q]
    ensures WalkSucceeds(u, rules)
  {
  }

  /** After the removal, planning under the same rules succeeds, and finds no target and the same paths blocked. */
  lemma ReplanIsEmpty(t: Disk, u: Disk, rules: Rules, plan: Plan)
    requires RulesOk(rules) && WalkSucceeds(t, rules) && PlanOf(t, rules, plan)
    requires OnlyTargetsGone(t, u, plan) && Loaded(u) == NoneFound
    ensures WalkSucceeds(u, rules)
    ensures AllTargets(u, rules) == {}
    ensures AllBlocked(u, rules) == AllBlocked(t, rules)
  {
    RootStays(t, u, rules, plan);
    WalksAgain(t, u, rules);
    forall q | Disposable(rules, q)
      ensures !IsTarget(u, rules, q)
      ensures IsBlocked(u, rules, q) <==> IsBlocked(t, rules, q)
    {
      if x :| x in plan.targets && x.path == q {
        TargetGone(t, u, rules, plan, x);
      } else {
        UntouchedBelow(t, u, rules, plan, q);
        SameCollectable(t, u, rules, q);
        NotTarget(t, rules, plan, q);
      }
    }
  }

  lemma RootStays(t: Disk, u: Disk, rules: Rules, plan: Plan)
    requires RulesOk(rules) && WalkSucceeds(t, rules) && PlanOf(t, rules, plan) && OnlyTargetsGone(t, u, plan)
    ensures [] in u && u[[]] == t[[]]
    ensures forall q | q != TRANSACTION_ROOT && q in u :: q in t && u[q] == t[q]
  {
    forall i | 0 <= i < |plan.targets|
      ensures plan.targets[i].path != []
    {
      assert plan.targets[i] in plan.targets && plan.targets[i].path in PathsOf(plan.targets);
    }
    assert Get(u, []) == Get(t, []);
    forall q | q != TRANSACTION_ROOT && q in u
      ensures q in t && u[q] == t[q]
    {
      assert Get(u, q) == None || Get(u, q) == Get(t, q);
    }
  }

  lemma NotTarget(t: Disk, rules: Rules, plan: Plan, q: Path)
    requires PlanOf(t, rules, plan) && forall x | x in plan.targets :: x.path != q
    ensures !IsTarget(t, rules, q)
  {
    assert q !in PathsOf(plan.targets);
  }

  lemma TargetGone(t: Disk, u: Disk, rules: Rules, plan: Plan, x: Target)
    requires RulesOk(rules) && PlanOf(t, rules, plan) && OnlyTargetsGone(t, u, plan) && x in plan.targets
    ensures x.path !in u && IsTarget(t, rules, x.path)
  {
    var i :| 0 <= i < |plan.targets| && plan.targets[i] == x;
    PlanIsSeparate(t, rules, plan);
    assert Get(u, x.path) == None;
    assert x.path in PathsOf(plan.targets);
  }

  /** Whatever a kept or protected path covers is the same after the removal. */
  lemma RetainedUnchanged(t: Disk, u: Disk, rules: Rules, plan: Plan, k: Path, q: Path)
    requires RulesOk(rules) && PlanOf(t, rules, plan) && OnlyTargetsGone(t, u, plan)
    requires (k in rules.Keep() || k in rules.protected) && k <= q && q != TRANSACTION_ROOT
    ensures Get(u, q) == Get(t, q)
  {
    forall i | 0 <= i < |plan.targets|
      ensures !(plan.targets[i].path <= q)
    {
      assert plan.targets[i] in plan.targets && plan.targets[i].path in PathsOf(plan.targets);
      RetainedIsSafe(t, rules, plan.targets[i].path, q, k);
    }
  }

  // From policy to clean disk

  /** What a kept or protected path covers is as it was; the transaction root itself may have been made. */
  predicate RetainedAt(t: Disk, rules: Rules, u: Disk, k: Path, q: Path) {
    (k in rules.Keep() || k in rules.protected) && k <= q && q != TRANSACTION_ROOT ==> Get(u, q) == Get(t, q)
  }

  ghost predicate Retained(t: Disk, rules: Rules, u: Disk) {
    forall k, q :: RetainedAt(t, rules, u, k, q)
  }

  lemma AllRetained(t: Disk, u: Disk, rules: Rules, plan: Plan)
    requires RulesOk(rules) && PlanOf(t, rules, plan) && OnlyTargetsGone(t, u, plan)
    ensures Retained(t, rules, u)
  {
    forall k, q
      ensures RetainedAt(t, rules, u, k, q)
    {
      if (k in rules.Keep() || k in rules.protected) && k <= q && q != TRANSACTION_ROOT {
        RetainedUnchanged(t, u, rules, plan, k, q);
      }
    }
  }

  /** What a finished run of `operate` leaves of disk `t`. */
  ghost predicate Cleaned(t: Disk, rules: Rules, u: Disk) {
    && WellFormed(u)
    && Retained(t, rules, u)
    && WalkSucceeds(u, rules)
    && AllTargets(u, rules) == {}
    && AllBlocked(u, rules) == AllBlocked(t, rules)
    && Loaded(u) == NoneFound
  }

  /** A disk without its targets is a tree still. */
  lemma StillATree(t: Disk, u: Disk, rules: Rules, plan: Plan)
    requires RulesOk(rules) && WalkSucceeds(t, rules) && PlanOf(t, rules, plan) && OnlyTargetsGone(t, u, plan)
    requires WellFormed(t) && Loaded(t) == NoneFound && Loaded(u) == NoneFound
    ensures WellFormed(u)
  {
    RootStays(t, u, rules, plan);
    forall q | q in u && q != []
      ensures IsDirectory(u, Parent(q))
    {
      if q == TRANSACTION_ROOT {
        assert Parent(q) == [];
      } else {
        NothingInRoot(t, q);
        assert Get(u, q) == Get(t, q) && IsDirectory(t, Parent(q));
        forall i | 0 <= i < |plan.targets|
          ensures !(plan.targets[i].path <= Parent(q))
        {
          assert Parent(q) <= q;
        }
        assert Get(u, Parent(q)) == Get(t, Parent(q));
      }
    }
  }

  lemma NothingInRoot(t: Disk, q: Path)
    requires WellFormed(t) && Loaded(t) == NoneFound && q in t && q != []
    ensures Parent(q) != TRANSACTION_ROOT
  {
    if Parent(q) == TRANSACTION_ROOT {
      if Children(t, TRANSACTION_ROOT) == {} {
        NothingBelow(t, TRANSACTION_ROOT, q);
      }
    }
  }

  lemma CleanedAfter(t: Disk, u: Disk, rules: Rules, plan: Plan)
    requires RulesOk(rules) && WalkSucceeds(t, rules) && PlanOf(t, rules, plan)
    requires OnlyTargetsGone(t, u, plan) && Loaded(u) == NoneFound
    requires WellFormed(t) && Loaded(t) == NoneFound
    ensures Cleaned(t, rules, u)
  {
    StillATree(t, u, rules, plan);
    ReplanIsEmpty(t, u, rules, plan);
    AllRetained(t, u, rules, plan);
  }

  /** A disk on which `plan` is what there is to clean, and nothing stands in the way. */
  ghost predicate Cleanable(t: Disk, rules: Rules, plan: Plan) {
    && RulesOk(rules) && RealDisk(t) && Loaded(t) == NoneFound
    && WalkSucceeds(t, rules) && PlanOf(t, rules, plan) && plan.targets != []
    && (rules.scope == Close ==> AllBlocked(t, rules) == {})
  }

  /** A process with `budget` changes takes the clean on from where `left` are needed: it ends it, or dies in it. */
  ghost predicate CleanedOn(t: Disk, rules: Rules, plan: Plan, budget: int, left: int, u: Disk, r: Outcome) {
    && (r.Pass? <==> budget >= left)
    && (r.Pass? ==> Cleaned(t, rules, u))
    && (!r.Pass? ==> r.Crash? && Left(t, plan, u, left - budget))
  }

  lemma TakenOnIsCleaned(t: Disk, rules: Rules, plan: Plan, budget: int, left: int, u: Disk, r: Outcome)
    requires Cleanable(t, rules, plan) && TakenOn(t, plan, budget, left, u, r)
    ensures CleanedOn(t, rules, plan, budget, left, u, r)
  {
    if r.Pass? {
      CleanedAfter(t, u, rules, plan);
    }
  }

  /** A clean that is not published yet starts from the same plan. */
  lemma StillCleanable(t: Disk, u: Disk, rules: Rules, plan: Plan)
    requires Cleanable(t, rules, plan) && Unpublished(t, u)
    ensures Cleanable(u, rules, plan)
  {
    PlanIsPlanned(t, rules, plan);
    PlanIsSeparate(t, rules, plan);
    StillPlanned(t, u, plan);
    StillReal(t, u);
    assert Get(u, []) == Get(t, []);
    forall q | q != TRANSACTION_ROOT && q in u
      ensures q in t && u[q] == t[q]
    {
      assert Get(u, q) == Get(t, q);
    }
    WalksAgain(t, u, rules);
    SamePlan(t, u, rules, plan);
  }

  lemma StillReal(t: Disk, u: Disk)
    requires RealDisk(t) && WellFormed(u) && Unpublished(t, u)
    ensures RealDisk(u)
  {
    forall p | p in u
      ensures p != [] ==> NormalizedPath(p)
      ensures u[p].inode > 0
    {
      assert p != TRANSACTION_ROOT ==> Get(u, p) == Get(t, p);
    }
  }

  lemma SamePlan(t: Disk, u: Disk, rules: Rules, plan: Plan)
    requires RulesOk(rules) && PlanOf(t, rules, plan) && Unpublished(t, u)
    ensures PlanOf(u, rules, plan) && AllBlocked(u, rules) == AllBlocked(t, rules)
  {
    forall q | Disposable(rules, q)
      ensures IsTarget(u, rules, q) <==> IsTarget(t, rules, q)
      ensures IsBlocked(u, rules, q) <==> IsBlocked(t, rules, q)
      ensures IsTarget(t, rules, q) ==> TargetAt(u, q) == TargetAt(t, q)
    {
      SameCollectable(t, u, rules, q);
    }
    assert AllTargets(u, rules) == AllTargets(t, rules);
    forall x | x in plan.targets
      ensures x.path in u && Collectable(u, x.path) && x == TargetAt(u, x.path)
    {
      assert x.path in PathsOf(plan.targets);
    }
  }

  // What the policy's document says

  /** What the document lists to stay, or a runtime owner protects, is the same, apart from the transaction root. */
  ghost predicate KeptSame(d: Document, rules: Rules, t: Disk, u: Disk) {
    forall k, q | StaysAt(d, rules, k, q) && !(TRANSACTION_ROOT <= q) :: Get(u, q) == Get(t, q)
  }

  /** `q` lies at or below a path that is listed to stay or protected. */
  predicate StaysAt(d: Document, rules: Rules, k: Path, q: Path) {
    (ListedToStay(d, rules.scope, k) || k in rules.protected) && k <= q
  }

  lemma AllowedKept(d: Document, rules: Rules, plan: Plan, t: Disk, u: Disk)
    requires PolicyOf(d, rules.policy) && TargetsAllowed(rules, plan) && OnlyPlanChanged(plan, t, u)
    ensures KeptSame(d, rules, t, u)
  {
    forall k, q | StaysAt(d, rules, k, q) && !(TRANSACTION_ROOT <= q)
      ensures Get(u, q) == Get(t, q)
    {
      ListedStays(d, rules.policy, rules.scope, k);
      forall i | 0 <= i < |plan.targets|
        ensures !(plan.targets[i].path <= q)
      {
        assert plan.targets[i] in plan.targets && !Overlaps(plan.targets[i].path, k);
        if plan.targets[i].path <= q {
          PrefixesNest(plan.targets[i].path, k, q);
        }
      }
    }
  }

  /** Something at or above `q` is not to be removed as an artifact: for its directories, its owner, mode or kind. */
  ghost predicate NotRemovable(u: Disk, b: Path) {
    (exists a | a < b :: !PrivateAt(u, a)) || !Safe(ArtifactTree, Sub(u, b))
  }

  /** Why a node may still be there after a clean. */
  ghost predicate MayBeLeft(d: Document, rules: Rules, u: Disk, q: Path) {
    || (exists k :: StaysAt(d, rules, k, q))
    || q in d.containers || (exists k | k in rules.protected :: q < k)
    || (rules.scope == Clean && exists b | b in u && b <= q :: NotRemovable(u, b))
  }

  /** Nothing else is left; in a close, nothing that could not be removed either. */
  ghost predicate OnlyRetainedLeft(d: Document, rules: Rules, u: Disk) {
    forall q | q in u && q != [] :: MayBeLeft(d, rules, u, q)
  }

  lemma BlockedIsNotRemovable(u: Disk, b: Path)
    requires b in u && b != [] && !Collectable(u, b)
    ensures NotRemovable(u, b)
  {
    FingerprintSafe(ArtifactTree, Sub(u, b));
    if !ParentsOk(u, b) {
      var k :| 0 <= k < |b| && !(b[..k] in u && OwnedDirectory(u[b[..k]], true));
      assert b[..k] < b && !PrivateAt(u, b[..k]);
    }
  }

  lemma LeftIsRetained(d: Document, rules: Rules, u: Disk, q: Path)
    requires PolicyOf(d, rules.policy) && WellFormed(u) && q in u && q != []
    requires AllTargets(u, rules) == {} && (rules.scope == Close ==> AllBlocked(u, rules) == {})
    ensures MayBeLeft(d, rules, u, q)
  {
    Partition(u, rules, q);
    ListedStays(d, rules.policy, rules.scope, q);
    if Owner(rules, q).Some? {
      var o := Owner(rules, q).value;
      ListedStays(d, rules.policy, rules.scope, o);
      match Classify(rules, o)
      case Kept => assert StaysAt(d, rules, o, q);
      case Protected =>
        var k :| k in rules.protected && k <= o;
        assert StaysAt(d, rules, k, q);
      case Candidate =>
        assert o !in AllTargets(u, rules);
        assert o in AllBlocked(u, rules);
        BlockedIsNotRemovable(u, o);
      case Structural =>
    }
  }

  lemma CleanedIsSwept(d: Document, t: Disk, rules: Rules, u: Disk)
    requires PolicyOf(d, rules.policy) && Cleaned(t, rules, u)
    requires rules.scope == Close ==> AllBlocked(t, rules) == {}
    ensures OnlyRetainedLeft(d, rules, u)
  {
    forall q | q in u && q != []
      ensures MayBeLeft(d, rules, u, q)
    {
      LeftIsRetained(d, rules, u, q);
    }
  }

  /** The name of the cycle a scope cleans in. */
  predicate InScope(rules: Rules, cycle: string) {
    cycle == match rules.scope case Clean => "artifacts-" + rules.policy.digest
                               case Close => "artifacts-close-" + rules.policy.digest
  }

  /** What no clean of this policy removes: a structural parent, what overlaps a path that stays, or no artifact. */
  predicate ForbiddenTarget(d: Document, rules: Rules, x: Target, k: Path) {
    || (x.kind != ArtifactFile && x.kind != ArtifactTree) || x.path in d.containers
    || ((ListedToStay(d, rules.scope, k) || k in rules.protected) && (k <= x.path || x.path <= k))
  }

  /** A pending plan of another policy or scope, or one that removes what now has to stay. */
  ghost predicate Forbidden(d: Document, rules: Rules, plan: Plan) {
    !InScope(rules, plan.cycle) || exists x, k :: x in plan.targets && ForbiddenTarget(d, rules, x, k)
  }

  ghost predicate PendingForbidden(d: Document, rules: Rules, t: Disk) {
    PolicyOf(d, rules.policy) && Loaded(t).Pending? && Forbidden(d, rules, Loaded(t).transaction.plan)
  }

  lemma ForbiddenRefused(d: Document, rules: Rules, plan: Plan, u: Disk)
    requires PolicyOf(d, rules.policy) && Forbidden(d, rules, plan)
    ensures !PendingAccepted(u, rules, plan)
  {
    if InScope(rules, plan.cycle) {
      var x, k :| x in plan.targets && ForbiddenTarget(d, rules, x, k);
      ListedStays(d, rules.policy, rules.scope, k);
      ListedStays(d, rules.policy, rules.scope, x.path);
      assert k <= x.path ==> k == x.path || k < x.path;
      assert x.path <= k ==> k == x.path || x.path < k;
      assert (ListedToStay(d, rules.scope, k) || k in rules.protected) && (k <= x.path || x.path <= k) ==>
          Overlaps(x.path, k) && (k in rules.Keep() || k in rules.protected);
    }
  }

  lemma OpenedAbove(d: Document, rules: Rules, a: Path, k: Path)
    requires RulesOk(rules) && PolicyOf(d, rules.policy) && k in d.task && a != [] && a < k
    ensures a in d.containers
  {
    ListedStays(d, rules.policy, rules.scope, a);
    assert k in rules.policy.task && k in rules.policy.Everything();
    assert a == k[..|a|];
  }

  /** A close drops the task state: what is listed as such, and overlaps nothing protected, is gone. */
  lemma CloseDropsTask(d: Document, rules: Rules, u: Disk, k: Path)
    requires RulesOk(rules) && PolicyOf(d, rules.policy) && rules.scope == Close && OnlyRetainedLeft(d, rules, u)
    requires k in d.task && forall p | p in rules.protected :: !(p <= k) && !(k <= p)
    ensures k !in u
  {
    ListedStays(d, rules.policy, Close, k);
    assert k in rules.policy.task && k in rules.policy.Everything();
    forall a | a != [] && a < k
      ensures a in d.containers
    {
      OpenedAbove(d, rules, a, k);
    }
    forall a | ListedToStay(d, Close, a)
      ensures !StaysAt(d, rules, a, k)
    {
      ListedStays(d, rules.policy, Close, a);
      assert a in rules.policy.Everything();
      assert a <= k ==> a == k || a < k;
    }
    assert k in u ==> MayBeLeft(d, rules, u, k);
  }

  // operate

  /** A clean that was cut off is either as it was before, or pending and accepted. */
  lemma BegunLoads(t: Disk, rules: Rules, plan: Plan, u: Disk, left: int)
    requires Cleanable(t, rules, plan) && Left(t, plan, u, left)
    ensures
      || (Loaded(u) == NoneFound && Unpublished(t, u) && left == Need(u, plan) && Cleanable(u, rules, plan))
      || (Loaded(u).Pending? && Loaded(u).transaction.plan == plan && PendingAccepted(u, rules, plan))
  {
    if Unpublished(t, u) && left == Need(u, plan) {
      StillCleanable(t, u, rules, plan);
    } else {
      var b, tx :| InRun(t, plan, u, b, tx) && left == WorkLeft(tx, u);
      UnderwayLoads(b, tx, u);
      PendingStaysAccepted(t, rules, b, tx, u);
    }
  }

  lemma SeenCleanedFrom(t: Disk, v: Disk, rules: Rules, plan: Plan, budget: int, left: int, u: Disk, r: Outcome)
    requires Cleanable(t, rules, plan) && Unpublished(t, v) && TakenOn(v, plan, budget, left, u, r)
    ensures CleanedOn(t, rules, plan, budget, left, u, r)
  {
    SeenFrom(t, v, plan, budget, left, u, r);
    TakenOnIsCleaned(t, rules, plan, budget, left, u, r);
  }

  lemma NothingToClean(t: Disk, rules: Rules, plan: Plan)
    requires WellFormed(t) && Loaded(t) == NoneFound
    requires WalkSucceeds(t, rules) && PlanOf(t, rules, plan) && plan.targets == []
    ensures Cleaned(t, rules, t)
  {
    assert PathsOf(plan.targets) == {};
  }

  /** A plan of the present disk is published and finished. */
  method CleanPlanned(host: Host, rules: Rules, plan: Plan) returns (r: Outcome)
    requires RulesOk(rules) && Loaded(host.disk) == NoneFound && WalkSucceeds(host.disk, rules)
    requires PlanOf(host.disk, rules, plan) && plan.targets != []
    modifies host
    ensures OnlyPlanChanged(plan, old(host.disk), host.disk)
    ensures RealDisk(old(host.disk)) ==>
      TakenOn(old(host.disk), plan, old(host.budget), Need(old(host.disk), plan), host.disk, r)
    ensures RealDisk(old(host.disk)) && r.Pass? ==> Cleaned(old(host.disk), rules, host.disk)
  {
    ghost var t := host.disk;
    if RealDisk(t) {
      PlanIsPlanned(t, rules, plan);
      PlanIsSeparate(t, rules, plan);
    }
    r := PublishAndFinish(host, plan);
    if RealDisk(t) && r.Pass? {
      CleanedAfter(t, host.disk, rules, plan);
    }
  }

  /** A pending clean of this policy and scope is taken on, if it is the one that was confirmed. */
  method OperatePending(host: Host, rules: Rules, confirmed: Plan, tx: Transaction, ghost d: Document, ghost t: Disk,
                        ghost left: int) returns (r: Outcome)
    requires RulesOk(rules) && Loaded(host.disk) == Pending(tx)
    modifies host
    ensures Cleanable(t, rules, confirmed) && Left(t, confirmed, old(host.disk), left) ==>
      CleanedOn(t, rules, confirmed, old(host.budget), left, host.disk, r)
    ensures AlteredSince(t, old(host.disk), confirmed) ==> r.Fail? && host.disk == old(host.disk)
    ensures PolicyOf(d, rules.policy) ==> KeptSame(d, rules, old(host.disk), host.disk)
    ensures PolicyOf(d, rules.policy) && Forbidden(d, rules, tx.plan) ==> r.Fail? && host.disk == old(host.disk)
  {
    ghost var v, begun := host.disk, Cleanable(t, rules, confirmed) && Left(t, confirmed, host.disk, left);
    if begun {
      BegunLoads(t, rules, confirmed, v, left);
    }
    if AlteredSince(t, v, confirmed) {
      SomeAlteredRefused(t, v, confirmed, true);
    }
    if PolicyOf(d, rules.policy) && Forbidden(d, rules, tx.plan) {
      ForbiddenRefused(d, rules, tx.plan, v);
    }
    if !PendingAccepted(host.disk, rules, tx.plan) || confirmed != tx.plan {
      return Fail("pending cleanup target is now retained or runtime-owned");
    }
    r := FinishPending(host, tx, t, left);
    if PolicyOf(d, rules.policy) {
      AllowedKept(d, rules, tx.plan, v, host.disk);
    }
    if begun {
      TakenOnIsCleaned(t, rules, confirmed, old(host.budget), left, host.disk, r);
    }
  }

  /** With nothing pending, the plan of the present disk is removed if it is the one that was confirmed. */
  method OperateNew(host: Host, rules: Rules, confirmed: Plan, ghost d: Document, ghost t: Disk, ghost left: int)
    returns (r: Outcome)
    requires RulesOk(rules) && Loaded(host.disk) == NoneFound && WellFormed(host.disk)
    modifies host
    ensures Cleanable(t, rules, confirmed) && Left(t, confirmed, old(host.disk), left) ==>
      CleanedOn(t, rules, confirmed, old(host.budget), left, host.disk, r)
    ensures RealDisk(old(host.disk)) ==>
      && (r.Pass? ==>
            Cleaned(old(host.disk), rules, host.disk)
            && (rules.scope == Close ==> AllBlocked(old(host.disk), rules) == {}))
      && (r.Fail? ==> host.disk == old(host.disk))
    ensures AlteredSince(t, old(host.disk), confirmed) ==> r.Fail? && host.disk == old(host.disk)
    ensures PolicyOf(d, rules.policy) ==> KeptSame(d, rules, old(host.disk), host.disk)
  {
    ghost var v, begun := host.disk, Cleanable(t, rules, confirmed) && Left(t, confirmed, host.disk, left);
    if begun {
      BegunLoads(t, rules, confirmed, v, left);
    }
    var inventory := TakeInventory(host.disk, rules);
    if inventory.Err? {
      return Fail(inventory.error);
    }
    var plan := inventory.value.plan;
    if begun {
      OnePlan(v, rules, plan, confirmed);
    }
    PlanIsAsItIs(v, rules, plan);
    if AlteredSince(t, v, confirmed) {
      SomeAlteredRefused(t, v, confirmed, false);
    }
    if confirmed != plan {
      return Fail("CONFIRM does not match the plan");
    }
    if rules.scope == Close && inventory.value.blocked != {} {
      return Fail("artifacts-close deletes nothing while a blocked path remains");
    }
    if plan.targets == [] {
      NothingToClean(v, rules, plan);
      return Pass;
    }
    r := CleanPlanned(host, rules, plan);
    if PolicyOf(d, rules.policy) {
      PlanAllowed(v, rules, plan);
      AllowedKept(d, rules, plan, v, host.disk);
    }
    if begun {
      SeenCleanedFrom(t, v, rules, confirmed, old(host.budget), left, host.disk, r);
    }
  }

  /** The disk is one to clean: clean `confirmed` was begun on `t`, or nothing is pending. */
  ghost predicate ToClean(t: Disk, rules: Rules, confirmed: Plan, u: Disk, left: int) {
    (Cleanable(t, rules, confirmed) && Left(t, confirmed, u, left)) || (RealDisk(u) && Loaded(u) == NoneFound)
  }

  /**
   * operate, for a confirmed clean.  A clean of `t` that was begun, and cut off
   * anywhere, is taken on from there: with the changes it still needs it ends with
   * the disk cleaned, and with fewer it dies where the next call can take it on.
   * Where nothing is pending it ends cleaned, or refuses and changes nothing, or dies.
   * A pending plan that removes what has to stay is refused, and nothing changes.
   * On any disk, and however it ends, what the policy's document `d` lists to stay in
   * this scope, and what is protected, is as it was; and once it has passed, nothing
   * else is left but structural parents and, short of a close, what may not be removed.
   */
  method Operate(host: Host, rules: Rules, confirmed: Plan, ghost d: Document, ghost t: Disk, ghost left: int)
    returns (r: Outcome)
    requires RulesOk(rules) && (Loaded(host.disk).NoneFound? ==> WellFormed(host.disk))
    modifies host
    ensures Cleanable(t, rules, confirmed) && Left(t, confirmed, old(host.disk), left) ==>
      CleanedOn(t, rules, confirmed, old(host.budget), left, host.disk, r)
    ensures RealDisk(old(host.disk)) && Loaded(old(host.disk)) == NoneFound ==>
      && (r.Pass? ==> Cleaned(old(host.disk), rules, host.disk))
      && (r.Fail? ==> host.disk == old(host.disk))
    ensures PolicyOf(d, rules.policy) ==>
      && KeptSame(d, rules, old(host.disk), host.disk)
      && (r.Pass? && ToClean(t, rules, confirmed, old(host.disk), left) ==> OnlyRetainedLeft(d, rules, host.disk))
    ensures AlteredSince(t, old(host.disk), confirmed) ==> r.Fail? && host.disk == old(host.disk)
    ensures PendingForbidden(d, rules, old(host.disk)) ==> r.Fail? && host.disk == old(host.disk)
  {
    ghost var v, begun := host.disk, Cleanable(t, rules, confirmed) && Left(t, confirmed, host.disk, left);
    ghost var idle := RealDisk(v) && Loaded(v) == NoneFound;
    if begun {
      BegunLoads(t, rules, confirmed, v, left);
    }
    var pending := Load(host);
    if pending.Rejected? {
      return Fail("cycle cleanup transaction root has unexpected state");
    }
    if pending.Pending? {
      r := OperatePending(host, rules, confirmed, pending.transaction, d, t, left);
    } else {
      r := OperateNew(host, rules, confirmed, d, t, left);
    }
    if PolicyOf(d, rules.policy) && r.Pass? {
      if begun {
        CleanedIsSwept(d, t, rules, host.disk);
      } else if idle {
        CleanedIsSwept(d, v, rules, host.disk);
      }
    }
  }

  /** One process calls the clean, with its own budget. */
  method OperateOnce(host: Host, rules: Rules, confirmed: Plan, budget: nat, ghost d: Document, ghost t: Disk,
                     ghost left: int) returns (r: Outcome)
    requires Cleanable(t, rules, confirmed) && Left(t, confirmed, host.disk, left)
    modifies host
    ensures CleanedOn(t, rules, confirmed, budget, left, host.disk, r)
    ensures PolicyOf(d, rules.policy) ==>
      KeptSame(d, rules, old(host.disk), host.disk) && (r.Pass? ==> OnlyRetainedLeft(d, rules, host.disk))
  {
    BegunLoads(t, rules, confirmed, host.disk, left);
    host.budget := budget;
    r := Operate(host, rules, confirmed, d, t, left);
  }

  /**
   * The clean is called again after every crash: whatever the budgets, it is done
   * once their sum reaches the changes it needs, and can be taken on until then.
   */
  method OperateAgain(host: Host, rules: Rules, confirmed: Plan, budgets: seq<nat>, ghost d: Document)
    returns (done: bool)
    requires Cleanable(host.disk, rules, confirmed)
    modifies host
    ensures PolicyOf(d, rules.policy) ==>
      KeptSame(d, rules, old(host.disk), host.disk) && (done ==> OnlyRetainedLeft(d, rules, host.disk))
    ensures done <==> Sum(budgets) >= Need(old(host.disk), confirmed)
    ensures if done then Cleaned(old(host.disk), rules, host.disk)
            else Left(old(host.disk), confirmed, host.disk, Need(old(host.disk), confirmed) - Sum(budgets))
  {
    ghost var t, due: int := host.disk, Need(host.disk, confirmed);
    ghost var need := due;
    assert Unpublished(t, t);
    for k := 0 to |budgets|
      invariant due == need - Sum(budgets[..k]) && due > 0 && Left(t, confirmed, host.disk, due)
      invariant PolicyOf(d, rules.policy) ==> KeptSame(d, rules, t, host.disk)
    {
      SumSnoc(budgets, k);
      var r := OperateOnce(host, rules, confirmed, budgets[k], d, t, due);
      if r.Pass? {
        SumAtLeast(budgets, k + 1);
        return true;
      }
      due := due - budgets[k];
    }
    assert budgets[..|budgets|] == budgets;
    return false;
  }

  lemma {:induction false} SumAtLeast(s: seq<nat>, k: nat)
    requires k <= |s|
    ensures Sum(s[..k]) <= Sum(s)
    decreases |s| - k
  {
    if k == |s| {
      assert s[..k] == s;
    } else {
      SumSnoc(s, k);
      SumAtLeast(s, k + 1);
    }
  }
}
