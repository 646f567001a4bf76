/**
 * Publishing a plan, and taking it from there to the last marker: that goes through
 * exactly when no target lies below another and none is the transaction root.
 */
module CleanupPublication {
  import opened Wrappers
  import opened FileTree
  import opened CleanupNames
  import opened CleanupRecords
  import opened CleanupTransaction
  import opened CleanupWork
  import opened CleanupRuns
  import opened CleanupHost
  import opened CleanupFinisher
  import opened CleanupReview
  import opened Cleanup

  /** The node a target was planned as: a directory with the mode its kind asks for, or a file. */
  predicate KindOk(kind: TargetKind, n: Node<Content>) {
    if RemovesDirectory(kind)
    then
      && OwnedDirectory(n, kind != ArtifactTree)
      && (kind != ArtifactTree ==> n.mode == PRIVATE_DIRECTORY)
      && n.inode > 0
    else n.kind.Regular?
  }

  /** A disk with nothing pending, on which every target of the plan is as it was planned. */
  ghost predicate Planned(t: Disk, plan: Plan) {
    && WellFormed(t)
    && Loaded(t) == NoneFound
    && PlanRecordOk(plan)
    && PlanStateOk(t, plan, false)
    && forall i | 0 <= i < |plan.targets| ::
         plan.targets[i].path in t && KindOk(plan.targets[i].kind, t[plan.targets[i].path])
  }

  /** cleanup_directory_state */
  function DirectoryStateOf(t: Disk, target: Target): Option<DirectoryState> {
    if target.path !in t || !KindOk(target.kind, t[target.path]) then None
    else
      var fingerprint := Fingerprint(target.kind, Sub(t, target.path));
      if fingerprint.None? then None else Some(DirectoryState(t[target.path].inode, fingerprint.value))
  }

  function DirectoryStates(t: Disk, plan: Plan): map<nat, DirectoryState>
    requires forall i: nat | IsDirectoryTarget(plan, i) :: DirectoryStateOf(t, plan.targets[i]).Some?
  {
    map i: nat | 0 <= i < |plan.targets| && IsDirectoryTarget(plan, i) :: DirectoryStateOf(t, plan.targets[i]).value
  }

  lemma NothingBelow(t: Disk, p: Path, q: Path)
    requires WellFormed(t) && Children(t, p) == {} && p < q
    ensures q !in t
    decreases |q|
  {
    if |q| == |p| + 1 {
      assert q == p + [q[|p|]] && q[|p|] !in Children(t, p);
    } else {
      NothingBelow(t, p, Parent(q));
    }
  }

  /** The same apart from the transaction root itself. */
  ghost predicate SameButRoot(t: Disk, u: Disk) {
    forall q | q != TRANSACTION_ROOT :: Get(u, q) == Get(t, q)
  }

  /** Nothing has changed but what the plan's targets cover, and the transaction root. */
  ghost predicate OnlyPlanChanged(plan: Plan, t: Disk, u: Disk) {
    forall q | !(TRANSACTION_ROOT <= q) && (forall i | 0 <= i < |plan.targets| :: !(plan.targets[i].path <= q)) ::
      Get(u, q) == Get(t, q)
  }

  ghost predicate OnlyRootChanged(t: Disk, u: Disk) {
    forall q | !(TRANSACTION_ROOT <= q) :: Get(u, q) == Get(t, q)
  }

  lemma ElseIsPlan(tx: Transaction, t: Disk, u: Disk)
    requires NothingElseChanged(tx, t, u)
    ensures OnlyPlanChanged(tx.plan, t, u)
  {
    forall q | !(TRANSACTION_ROOT <= q)
        && (forall i | 0 <= i < |tx.plan.targets| :: !(tx.plan.targets[i].path <= q))
      ensures Get(u, q) == Get(t, q)
    {
      forall i | 0 <= i < |tx.plan.targets|
        ensures !Touches(tx, i, q)
      {
        NotBookkeeping(tx, i, q);
      }
      assert !(MarkerPath(tx) <= q);
      assert Outside(tx, q);
    }
  }

  /** The changes publication needs: the transaction root if it is missing, and the marker. */
  function Setup(t: Disk): nat {
    if TRANSACTION_ROOT in t then 1 else 2
  }

  /** cycle_cleanup_transaction_root with create=True */
  method PrepareRoot(host: Host) returns (r: Outcome)
    modifies host
    ensures r.Pass? ==> TransactionRootOk(host.disk)
    ensures Get(old(host.disk), TRANSACTION_ROOT).Some? || !r.Pass? ==> host.disk == old(host.disk)
    ensures SameButRoot(old(host.disk), host.disk)
    ensures r.Pass? && TRANSACTION_ROOT !in old(host.disk) ==> host.disk[TRANSACTION_ROOT].inode > 0
    ensures r.Pass? ==> host.budget + Setup(old(host.disk)) == old(host.budget) + 1
    ensures r.Crash? ==> old(host.budget) == 0 && TRANSACTION_ROOT !in old(host.disk)
    ensures r.Fail? ==>
      !([] in old(host.disk) && OwnedDirectory(old(host.disk)[[]], true))
      || (TRANSACTION_ROOT in old(host.disk) && !TransactionRootOk(old(host.disk)))
  {
    if [] !in host.disk || !OwnedDirectory(host.disk[[]], true) {
      return Fail("fork-maintenance artifact root is not a real owned directory");
    }
    if TRANSACTION_ROOT !in host.disk {
      if host.budget == 0 {
        return Crash;
      }
      var inode: nat :| inode > 0;
      host.disk := host.disk[TRANSACTION_ROOT := Node(Directory, inode, PRIVATE_DIRECTORY, true)];
      host.budget := host.budget - 1;
    }
    return if TransactionRootOk(host.disk) then Pass
           else Fail("cycle cleanup transaction root mode is not exactly 0700");
  }

  /** `b` is `t` with an empty transaction root. */
  ghost predicate Prepared(t: Disk, b: Disk) {
    && SameButRoot(t, b)
    && (Get(t, TRANSACTION_ROOT).Some? ==> b == t)
    && TransactionRootOk(b)
    && forall q | TRANSACTION_ROOT < q :: q !in b
  }

  /** A planned disk with its root made, and a plan clear of it: what can be published. */
  ghost predicate Publishable(t: Disk, b: Disk, plan: Plan) {
    Planned(t, plan) && Prepared(t, b) && PrefixFree(plan) && ClearOfRoot(plan)
  }

  lemma MarkerIsInRoot(tx: Transaction, t: Disk, n: Node<Content>)
    ensures OnlyRootChanged(t, t[MarkerPath(tx) := n])
  {
    assert TRANSACTION_ROOT <= MarkerPath(tx);
  }

  /** The marker of `plan` is published on a prepared disk, and must load again. */
  method PublishMarker(host: Host, plan: Plan, ghost t: Disk) returns (r: Outcome, tx: Transaction)
    modifies host
    ensures OnlyRootChanged(old(host.disk), host.disk)
    ensures r.Pass? ==> host.budget + 1 == old(host.budget) && tx.plan == plan && Loaded(host.disk) == Pending(tx)
    ensures r.Crash? ==> old(host.budget) == 0 && host.disk == old(host.disk)
    ensures r.Pass? && Planned(t, plan) && Prepared(t, old(host.disk)) ==> ClearOfRoot(plan)
    ensures Publishable(t, old(host.disk), plan) ==>
      !r.Fail? && (r.Pass? ==> Started(t, old(host.disk), tx, host.disk))
  {
    ghost var b := host.disk;
    tx := Transaction(plan, map[]);
    if Publishable(t, b, plan) {
      PreparedPublication(t, b, plan);
    }
    if exists i | 0 <= i < |plan.targets| ::
        IsDirectoryTarget(plan, i) && DirectoryStateOf(host.disk, plan.targets[i]).None?
    {
      return Fail("cycle cleanup directory target is not a real owned directory"), tx;
    }
    tx := Transaction(plan, DirectoryStates(host.disk, plan));
    r := host.Publish(MarkerPath(tx), TransactionRecord(tx));
    if !r.Pass? {
      return;
    }
    MarkerIsInRoot(tx, b, host.disk[MarkerPath(tx)]);
    if Publishable(t, b, plan) {
      PublishedRun(t, b, tx, host.disk);
    }
    var loaded := Load(host);
    if loaded != Pending(tx) {
      return Fail("published cycle cleanup transaction did not validate"), tx;
    }
    if Planned(t, plan) && Prepared(t, b) {
      RootTargetRefused(t, b, host.disk, tx);
    }
  }

  /** The run of `tx` has begun on `b`, with all the work of the plan left. */
  ghost predicate Started(t: Disk, b: Disk, tx: Transaction, u: Disk) {
    Underway(b, tx, u) && WorkLeft(tx, u) == PlannedWork(t, tx.plan) + 1
  }

  lemma PreparedPublication(t: Disk, b: Disk, plan: Plan)
    requires Planned(t, plan) && Prepared(t, b) && PrefixFree(plan) && ClearOfRoot(plan)
    ensures forall i | 0 <= i < |plan.targets| && IsDirectoryTarget(plan, i) ::
      DirectoryStateOf(b, plan.targets[i]).Some?
    ensures var tx := Transaction(plan, DirectoryStates(b, plan));
      Reviewed(b, tx) && MarkerPath(tx) !in b && MarkerPath(tx) != [] && IsDirectory(b, Parent(MarkerPath(tx)))
  {
    PreparedPlan(t, b, plan);
    PreparedReviewed(t, b, plan);
    var m := MarkerPath(Transaction(plan, DirectoryStates(b, plan)));
    assert TRANSACTION_ROOT < m && Parent(m) == TRANSACTION_ROOT;
  }

  lemma PublishedRun(t: Disk, b: Disk, tx: Transaction, u: Disk)
    requires Publishable(t, b, tx.plan) && Reviewed(b, tx)
    requires MarkerPath(tx) in u && u == b[MarkerPath(tx) := u[MarkerPath(tx)]]
    requires var n := u[MarkerPath(tx)];
      CleanupFile(n) && n.mode == PRIVATE_FILE && n.kind.content == TransactionRecord(tx)
    ensures Started(t, b, tx, u) && Loaded(u) == Pending(tx)
  {
    PublishStep(b, tx, u[MarkerPath(tx)]);
    UnderwayLoads(b, tx, u);
    PublishedWork(t, b, tx, u[MarkerPath(tx)]);
  }

  /** publish_cleanup_transaction; `b` is the disk the marker was published on. */
  method Publish(host: Host, plan: Plan) returns (r: Outcome, tx: Transaction, ghost b: Disk)
    modifies host
    ensures OnlyRootChanged(old(host.disk), host.disk)
    ensures r.Pass? ==> tx.plan == plan && Loaded(host.disk) == Pending(tx)
    ensures r.Pass? && Planned(old(host.disk), plan) ==> ClearOfRoot(plan)
    ensures Planned(old(host.disk), plan) && PrefixFree(plan) && ClearOfRoot(plan) ==>
      && !r.Fail?
      && (r.Pass? ==>
            && Started(old(host.disk), b, tx, host.disk) && SameButRoot(old(host.disk), b)
            && host.budget + Setup(old(host.disk)) == old(host.budget))
      && (r.Crash? ==>
            && Unpublished(old(host.disk), host.disk)
            && old(host.budget) + Setup(host.disk) == Setup(old(host.disk)))
  {
    ghost var t := host.disk;
    b := t;
    tx := Transaction(plan, map[]);
    var pending := Load(host);
    if !pending.NoneFound? {
      return Fail("a cycle cleanup transaction is already pending"), tx, b;
    }
    if Planned(t, plan) {
      PlannedRoot(t, plan);
    }
    r := PrepareRoot(host);
    b := host.disk;
    if Planned(t, plan) {
      PreparedEmpty(t, b);
    }
    if !r.Pass? {
      return;
    }
    r, tx := PublishMarker(host, plan, t);
  }

  /** Nothing is published yet: at most the transaction root was made. */
  ghost predicate Unpublished(t: Disk, u: Disk) {
    && Loaded(u) == NoneFound && SameButRoot(t, u)
    && (TRANSACTION_ROOT in t ==> u == t)
    && (TRANSACTION_ROOT in u && u != t ==> u[TRANSACTION_ROOT].inode > 0)
  }

  lemma PlannedRoot(t: Disk, plan: Plan)
    requires Planned(t, plan)
    ensures [] in t && OwnedDirectory(t[[]], true)
    ensures TRANSACTION_ROOT in t ==> TransactionRootOk(t)
    ensures forall q | TRANSACTION_ROOT < q :: q !in t
  {
    assert TargetStateOk(t, plan.targets[0], false);
    assert plan.targets[0].path[..0] == [];
    forall q | TRANSACTION_ROOT < q
      ensures q !in t
    {
      if TRANSACTION_ROOT in t {
        NothingBelow(t, TRANSACTION_ROOT, q);
      } else {
        MissingAbove(t, TRANSACTION_ROOT, q);
      }
    }
  }

  lemma MissingAbove(t: Disk, p: Path, q: Path)
    requires WellFormed(t) && p !in t && p <= q
    ensures q !in t
    decreases |q|
  {
    if p != q {
      MissingAbove(t, p, Parent(q));
    }
  }

  /** Making the transaction root leaves nothing pending. */
  lemma PreparedEmpty(t: Disk, b: Disk)
    requires Loaded(t) == NoneFound
    requires forall q | TRANSACTION_ROOT < q :: q !in t
    requires SameButRoot(t, b)
    requires Get(t, TRANSACTION_ROOT).Some? ==> b == t
    ensures forall q | TRANSACTION_ROOT < q :: q !in b
    ensures TransactionRootOk(b) || TRANSACTION_ROOT !in b ==> Loaded(b) == NoneFound
  {
    forall q | TRANSACTION_ROOT < q
      ensures q !in b
    {
      assert Get(b, q) == Get(t, q);
    }
    forall n
      ensures n !in Children(b, TRANSACTION_ROOT)
    {
      assert TRANSACTION_ROOT < TRANSACTION_ROOT + [n];
    }
    assert Children(b, TRANSACTION_ROOT) == {};
  }

  /** Making the transaction root does not touch a plan that is clear of it. */
  lemma PreparedPlan(t: Disk, b: Disk, plan: Plan)
    requires Planned(t, plan) && ClearOfRoot(plan)
    requires SameButRoot(t, b)
    ensures forall i | 0 <= i < |plan.targets| ::
      Sub(b, plan.targets[i].path) == Sub(t, plan.targets[i].path)
      && TargetStateOk(b, plan.targets[i], false)
      && plan.targets[i].path in b && KindOk(plan.targets[i].kind, b[plan.targets[i].path])
  {
    forall i | 0 <= i < |plan.targets|
      ensures Sub(b, plan.targets[i].path) == Sub(t, plan.targets[i].path)
      ensures TargetStateOk(b, plan.targets[i], false)
      ensures plan.targets[i].path in b && KindOk(plan.targets[i].kind, b[plan.targets[i].path])
    {
      PreparedTarget(t, b, plan, i);
    }
  }

  lemma PreparedTarget(t: Disk, b: Disk, plan: Plan, i: nat)
    requires i < |plan.targets| && ClearOfRoot(plan)
    requires TargetStateOk(t, plan.targets[i], false)
    requires plan.targets[i].path in t && KindOk(plan.targets[i].kind, t[plan.targets[i].path])
    requires SameButRoot(t, b)
    ensures Sub(b, plan.targets[i].path) == Sub(t, plan.targets[i].path)
    ensures TargetStateOk(b, plan.targets[i], false)
    ensures plan.targets[i].path in b && KindOk(plan.targets[i].kind, b[plan.targets[i].path])
  {
    var p := plan.targets[i].path;
    SubFrame(b, t, p);
    assert Get(b, p) == Get(t, p);
    forall k | 0 <= k < |p|
      ensures Get(b, p[..k]) == Get(t, p[..k])
    {
      assert p[..k] <= p;
    }
  }

  lemma PreparedWellFormed(t: Disk, b: Disk)
    requires WellFormed(t) && Prepared(t, b)
    ensures WellFormed(b)
  {
    assert Get(b, []) == Get(t, []);
    forall p | p in b && p != []
      ensures IsDirectory(b, Parent(p))
    {
      assert p != TRANSACTION_ROOT ==> Get(b, p) == Get(t, p);
      assert Parent(p) != TRANSACTION_ROOT ==> Get(b, Parent(p)) == Get(t, Parent(p));
    }
  }

  /** A plan on a prepared disk is a reviewed transaction. */
  lemma PreparedReviewed(t: Disk, b: Disk, plan: Plan)
    requires Planned(t, plan) && ClearOfRoot(plan) && PrefixFree(plan) && Prepared(t, b)
    requires forall i: nat | IsDirectoryTarget(plan, i) :: DirectoryStateOf(b, plan.targets[i]).Some?
    ensures Reviewed(b, Transaction(plan, DirectoryStates(b, plan)))
  {
    var tx := Transaction(plan, DirectoryStates(b, plan));
    PreparedWellFormed(t, b);
    forall i | 0 <= i < |plan.targets|
      ensures ReviewedTarget(b, tx, i)
    {
      PreparedTarget(t, b, plan, i);
      TargetReviewed(b, tx, i);
    }
  }

  lemma TargetReviewed(b: Disk, tx: Transaction, i: nat)
    requires i < |tx.plan.targets| && TargetStateOk(b, tx.plan.targets[i], false)
    requires forall i: nat | IsDirectoryTarget(tx.plan, i) :: DirectoryStateOf(b, tx.plan.targets[i]).Some?
    requires tx.directories == DirectoryStates(b, tx.plan)
    requires tx.plan.targets[i].path in b && KindOk(tx.plan.targets[i].kind, b[tx.plan.targets[i].path])
    ensures ReviewedTarget(b, tx, i)
  {
    var p := tx.plan.targets[i].path;
    assert p + [] == p;
  }

  /** New content changes the fingerprint of a directory. */
  lemma GrownFingerprint(kind: TargetKind, m: Disk, n: Disk, r: Path)
    requires RemovesDirectory(kind) && r != [] && r !in m && r in n
    requires [] in m && m[[]].kind.Directory? && Fingerprint(kind, m).Some?
    requires [] in n && n[[]].kind.Directory?
    ensures Fingerprint(kind, n) != Fingerprint(kind, m)
  {
    GrownTree(m, n, r, true, false);
    GrownTree(m, n, r, false, true);
  }

  lemma GrownTree(m: Disk, n: Disk, r: Path, private: bool, foreignLinks: bool)
    requires r != [] && r !in m && r in n
    ensures TreeFingerprint(m, private, foreignLinks).Some? ==>
      TreeFingerprint(n, private, foreignLinks) != TreeFingerprint(m, private, foreignLinks)
  {
    var f, g := TreeFingerprint(m, private, foreignLinks), TreeFingerprint(n, private, foreignLinks);
    if f.Some? && g.Some? {
      assert r in g.value.entries && r !in f.value.entries;
    }
  }

  lemma LoadedIsOk(u: Disk, tx: Transaction)
    requires Loaded(u) == Pending(tx)
    ensures TransactionOk(u, MarkerName(tx.plan.cycle), tx)
  {
  }

  /** A plan that names the transaction root never validates: the marker itself changes the target. */
  lemma RootTargetRefused(t: Disk, b: Disk, u: Disk, tx: Transaction)
    requires Planned(t, tx.plan) && Prepared(t, b)
    requires forall i: nat | IsDirectoryTarget(tx.plan, i) :: DirectoryStateOf(b, tx.plan.targets[i]).Some?
    requires tx.directories == DirectoryStates(b, tx.plan)
    requires MarkerPath(tx) in u && u == b[MarkerPath(tx) := u[MarkerPath(tx)]]
    requires Loaded(u) == Pending(tx)
    ensures ClearOfRoot(tx.plan)
  {
    LoadedIsOk(u, tx);
    forall i | 0 <= i < |tx.plan.targets|
      ensures !(tx.plan.targets[i].path <= TRANSACTION_ROOT) && !(TRANSACTION_ROOT <= tx.plan.targets[i].path)
    {
      RootTargetAt(t, b, u, tx, i);
    }
  }

  lemma RootTargetAt(t: Disk, b: Disk, u: Disk, tx: Transaction, i: nat)
    requires i < |tx.plan.targets| && Planned(t, tx.plan) && Prepared(t, b)
    requires forall i: nat | IsDirectoryTarget(tx.plan, i) :: DirectoryStateOf(b, tx.plan.targets[i]).Some?
    requires tx.directories == DirectoryStates(b, tx.plan)
    requires MarkerPath(tx) in u && u == b[MarkerPath(tx) := u[MarkerPath(tx)]]
    requires TransactionOk(u, MarkerName(tx.plan.cycle), tx)
    ensures !(tx.plan.targets[i].path <= TRANSACTION_ROOT) && !(TRANSACTION_ROOT <= tx.plan.targets[i].path)
  {
    PlannedRoot(t, tx.plan);
    assert tx.plan.targets[i].path in t;
    RootIsNoTarget(t, b, u, tx, i);
  }

  lemma RootIsNoTarget(t: Disk, b: Disk, u: Disk, tx: Transaction, i: nat)
    requires i < |tx.plan.targets|
    requires TransactionRootOk(b)
    requires tx.plan.targets[i].path == TRANSACTION_ROOT ==> KindOk(tx.plan.targets[i].kind, b[TRANSACTION_ROOT])
    requires forall q | TRANSACTION_ROOT < q :: q !in b
    requires forall i: nat | IsDirectoryTarget(tx.plan, i) :: DirectoryStateOf(b, tx.plan.targets[i]).Some?
    requires tx.directories == DirectoryStates(b, tx.plan)
    requires MarkerPath(tx) in u && u == b[MarkerPath(tx) := u[MarkerPath(tx)]]
    requires TransactionOk(u, MarkerName(tx.plan.cycle), tx)
    ensures tx.plan.targets[i].path != TRANSACTION_ROOT
  {
    var m, n, r := Sub(b, TRANSACTION_ROOT), Sub(u, TRANSACTION_ROOT), [MarkerName(tx.plan.cycle)];
    RootOf(b, TRANSACTION_ROOT);
    RootOf(u, TRANSACTION_ROOT);
    assert TRANSACTION_ROOT + [] == TRANSACTION_ROOT;
    assert TRANSACTION_ROOT < TRANSACTION_ROOT + r;
    if tx.plan.targets[i].path == TRANSACTION_ROOT {
      assert IsDirectoryTarget(tx.plan, i) && PresentTargetOk(u, tx, i);
      GrownFingerprint(tx.plan.targets[i].kind, m, n, r);
    }
  }

  // From plan to last marker

  /** No target may be the transaction root, and none may lie below another: what a caller can check. */
  predicate Separate(plan: Plan) {
    PrefixFree(plan) && forall i | 0 <= i < |plan.targets| :: plan.targets[i].path != TRANSACTION_ROOT
  }

  function PlannedWorks(t: Disk, plan: Plan): seq<nat> {
    seq(|plan.targets|, i requires 0 <= i < |plan.targets| =>
      Work(IsDirectoryTarget(plan, i), View(Sub(t, plan.targets[i].path), map[], map[])))
  }

  function PlannedWork(t: Disk, plan: Plan): nat {
    Sum(PlannedWorks(t, plan))
  }

  /** The changes a removal needs, from making the transaction root to removing the marker. */
  function Need(t: Disk, plan: Plan): nat {
    Setup(t) + PlannedWork(t, plan) + 1
  }

  /** `u` is `t` without the targets, and apart from the transaction root itself. */
  ghost predicate OnlyTargetsGone(t: Disk, u: Disk, plan: Plan) {
    forall q | q != TRANSACTION_ROOT :: Get(u, q) ==
      if exists i | 0 <= i < |plan.targets| :: plan.targets[i].path <= q then None else Get(t, q)
  }

  lemma SeparateIsClear(t: Disk, plan: Plan)
    requires Planned(t, plan) && Separate(plan)
    ensures ClearOfRoot(plan)
  {
    PlannedRoot(t, plan);
    forall i | 0 <= i < |plan.targets|
      ensures !(plan.targets[i].path <= TRANSACTION_ROOT) && !(TRANSACTION_ROOT <= plan.targets[i].path)
    {
      assert plan.targets[i].path in t && NormalizedPath(plan.targets[i].path);
    }
  }

  /** In canonical order a target below another one comes after it, so nesting is always found. */
  lemma UnnestedIsPrefixFree(plan: Plan)
    requires PlanRecordOk(plan) && NoneNested(plan, |plan.targets|)
    ensures PrefixFree(plan)
  {
    forall i, j | 0 <= i < |plan.targets| && 0 <= j < |plan.targets| && i != j
      ensures !(plan.targets[i].path <= plan.targets[j].path)
    {
      var p, q := plan.targets[i].path, plan.targets[j].path;
      assert p != q;
      if p < q && j < i {
        PosixExtends(p, q);
        PrefixIsLess(Posix(p), Posix(q));
      }
    }
  }

  lemma PublishedWork(t: Disk, b: Disk, tx: Transaction, n: Node<Content>)
    requires IsCycleName(tx.plan.cycle) && ClearOfRoot(tx.plan)
    requires forall q | q in b :: !(TRANSACTION_ROOT < q)
    requires SameButRoot(t, b)
    ensures WorkLeft(tx, b[MarkerPath(tx) := n]) == PlannedWork(t, tx.plan) + 1
  {
    var works, planned := Works(tx, b[MarkerPath(tx) := n]), PlannedWorks(t, tx.plan);
    forall i | 0 <= i < |tx.plan.targets|
      ensures works[i] == planned[i]
    {
      PublishedSubs(tx, b, n, i);
      SubFrame(b, t, tx.plan.targets[i].path);
    }
    assert works == planned;
  }

  lemma PassedIsSeparate(plan: Plan)
    requires PlanRecordOk(plan) && NoneNested(plan, |plan.targets|) && ClearOfRoot(plan)
    ensures Separate(plan)
  {
    UnnestedIsPrefixFree(plan);
  }

  lemma FinishedOnlyTargets(t: Disk, b: Disk, tx: Transaction, u: Disk)
    requires Finished(b, tx, u)
    requires SameButRoot(t, b)
    ensures OnlyTargetsGone(t, u, tx.plan)
  {
  }

  // How far a removal has come

  /** The removal of `plan` from `t` has come to `u`, and needs `left` more changes. */
  ghost predicate Left(t: Disk, plan: Plan, u: Disk, left: int) {
    || (Unpublished(t, u) && left == Need(u, plan))
    || exists b, tx :: InRun(t, plan, u, b, tx) && left == WorkLeft(tx, u)
  }

  ghost predicate InRun(t: Disk, plan: Plan, u: Disk, b: Disk, tx: Transaction) {
    tx.plan == plan && Underway(b, tx, u) && SameButRoot(t, b)
  }

  /** A process with `budget` changes takes the removal on from where `left` are needed: it ends it, or dies in it. */
  ghost predicate TakenOn(t: Disk, plan: Plan, budget: int, left: int, u: Disk, r: Outcome) {
    && (r.Pass? <==> budget >= left)
    && (r.Pass? ==> OnlyTargetsGone(t, u, plan) && Loaded(u) == NoneFound)
    && (!r.Pass? ==> r.Crash? && Left(t, plan, u, left - budget))
  }

  /** Seen from the disk before the transaction root was made. */
  lemma SeenFrom(t: Disk, v: Disk, plan: Plan, budget: int, left: int, u: Disk, r: Outcome)
    requires Unpublished(t, v) && TakenOn(v, plan, budget, left, u, r)
    ensures TakenOn(t, plan, budget, left, u, r)
  {
    if r.Crash? && !(Unpublished(v, u) && left - budget == Need(u, plan)) {
      var b, tx :| InRun(v, plan, u, b, tx) && left - budget == WorkLeft(tx, u);
      assert InRun(t, plan, u, b, tx);
    }
  }

  /** What is not published yet is as it was planned. */
  lemma StillPlanned(t: Disk, u: Disk, plan: Plan)
    requires Planned(t, plan) && Separate(plan) && Unpublished(t, u)
    ensures Planned(u, plan)
  {
    if u != t {
      SeparateIsClear(t, plan);
      PlannedRoot(t, plan);
      NothingMade(t, u);
      PreparedPlan(t, u, plan);
      PreparedWellFormed(t, u);
    }
  }

  lemma NothingMade(t: Disk, u: Disk)
    requires Unpublished(t, u) && u != t && forall q | TRANSACTION_ROOT < q :: q !in t
    ensures Prepared(t, u)
  {
    if TRANSACTION_ROOT !in u {
      forall q
        ensures q in t <==> q in u
        ensures q in t ==> t[q] == u[q]
      {
        assert q != TRANSACTION_ROOT ==> Get(u, q) == Get(t, q);
      }
      SameTree(t, u);
    }
    forall q | TRANSACTION_ROOT < q
      ensures q !in u
    {
      assert Get(u, q) == Get(t, q);
    }
  }

  /** What the finisher does from where a plan was just published, seen from before its publication. */
  lemma FinisherTakesOn(t: Disk, budget: nat, tx: Transaction, b: Disk, before: Disk, live: nat, u: Disk, r: Outcome)
    requires Planned(t, tx.plan) && Separate(tx.plan) && ClearOfRoot(tx.plan)
    requires Started(t, b, tx, before) && SameButRoot(t, b) && live + Setup(t) == budget
    requires r.Pass? <==> live >= WorkLeft(tx, before)
    requires r.Pass? ==> Finished(b, tx, u) && Loaded(u) == NoneFound
    requires !r.Pass? ==> r.Crash? && Continues(b, tx, before, u, live)
    ensures TakenOn(t, tx.plan, budget, Need(t, tx.plan), u, r)
  {
    if r.Pass? {
      FinishedOnlyTargets(t, b, tx, u);
    } else {
      assert InRun(t, tx.plan, u, b, tx);
    }
  }

  /** The published transaction is loaded back and finished. */
  method FinishPublished(host: Host, ghost t: Disk, ghost budget: nat, tx: Transaction, ghost b: Disk)
    returns (r: Outcome)
    requires Planned(t, tx.plan) ==>
      && ClearOfRoot(tx.plan)
      && (Separate(tx.plan) ==>
            Started(t, b, tx, host.disk) && SameButRoot(t, b) && host.budget + Setup(t) == budget)
    modifies host
    ensures OnlyPlanChanged(tx.plan, old(host.disk), host.disk)
    ensures Planned(t, tx.plan) && r.Pass? ==> Separate(tx.plan)
    ensures Planned(t, tx.plan) && Separate(tx.plan) ==>
      TakenOn(t, tx.plan, budget, Need(t, tx.plan), host.disk, r)
  {
    ghost var good := Planned(t, tx.plan) && Separate(tx.plan);
    if good {
      UnderwayLoads(b, tx, host.disk);
    }
    var loaded := Load(host);
    if loaded != Pending(tx) {
      return Fail("published cycle cleanup transaction disappeared");
    }
    var removed;
    ghost var before, live := host.disk, host.budget;
    r, removed := Finish(host, tx, b);
    ElseIsPlan(tx, before, host.disk);
    if Planned(t, tx.plan) && r.Pass? {
      PassedIsSeparate(tx.plan);
    }
    if good {
      FinisherTakesOn(t, budget, tx, b, before, live, host.disk, r);
    }
  }

  /** A plan is published and finished: on a planned disk, with enough budget, that works exactly if it is separate. */
  method PublishAndFinish(host: Host, plan: Plan) returns (r: Outcome)
    modifies host
    ensures OnlyPlanChanged(plan, old(host.disk), host.disk)
    ensures Planned(old(host.disk), plan) && r.Pass? ==> Separate(plan)
    ensures Planned(old(host.disk), plan) && Separate(plan) ==>
      TakenOn(old(host.disk), plan, old(host.budget), Need(old(host.disk), plan), host.disk, r)
  {
    ghost var t, budget := host.disk, host.budget;
    if Planned(t, plan) && Separate(plan) {
      SeparateIsClear(t, plan);
    }
    var tx;
    ghost var b;
    r, tx, b := Publish(host, plan);
    if r.Pass? {
      r := FinishPublished(host, t, budget, tx, b);
    } else if Planned(t, plan) && Separate(plan) {
      UnpublishedNeed(t, plan, host.disk);
    }
  }

  lemma UnpublishedNeed(t: Disk, plan: Plan, u: Disk)
    requires ClearOfRoot(plan) && Unpublished(t, u)
    ensures PlannedWork(u, plan) == PlannedWork(t, plan)
  {
    forall i | 0 <= i < |plan.targets|
      ensures Sub(u, plan.targets[i].path) == Sub(t, plan.targets[i].path)
    {
      SubFrame(u, t, plan.targets[i].path);
    }
    assert PlannedWorks(u, plan) == PlannedWorks(t, plan);
  }

  const HOUSE: Node<Content> := Node(Directory, 1, PRIVATE_DIRECTORY, true)
  const LETTER: Node<Content> := Node(Regular(Data("")), 2, PRIVATE_FILE, true)

  /** A directory with a file in it. */
  const NESTED: Disk := map[[] := HOUSE, ["a"] := HOUSE, ["a", "b"] := LETTER]

  function NestedPlan(outer: Digest, inner: Digest): Plan {
    Plan("c", [Target(ArtifactTree, ["a"], outer), Target(ArtifactFile, ["a", "b"], inner)])
  }

  /** Planned does not mean separate: a directory and a file in it, each as planned, and the removal never passes. */
  lemma PlannedNested() returns (plan: Plan)
    ensures Planned(NESTED, plan) && !Separate(plan)
  {
    NestedSubs();
    NestedTree();
    var outer := ArtifactFingerprint(Sub(NESTED, ["a"])).value;
    var inner := ArtifactFingerprint(Sub(NESTED, ["a", "b"])).value;
    plan := NestedPlan(outer, inner);
    NestedRecord(outer, inner);
    forall i | 0 <= i < |plan.targets|
      ensures TargetStateOk(NESTED, plan.targets[i], false)
      ensures plan.targets[i].path in NESTED && KindOk(plan.targets[i].kind, NESTED[plan.targets[i].path])
    {
      assert i == 0 || i == 1;
    }
  }

  lemma NestedRecord(outer: Digest, inner: Digest)
    ensures PlanRecordOk(NestedPlan(outer, inner)) && !Separate(NestedPlan(outer, inner))
  {
    var plan := NestedPlan(outer, inner);
    NestedOrder();
    assert plan.targets[0].path <= plan.targets[1].path;
  }

  lemma NestedTree()
    ensures WellFormed(NESTED) && Loaded(NESTED) == NoneFound
    ensures ParentsOk(NESTED, ["a"]) && ParentsOk(NESTED, ["a", "b"])
  {
    assert Parent(["a"]) == [] && Parent(["a", "b"]) == ["a"];
    assert ["a"][..0] == [] && ["a", "b"][..0] == [] && ["a", "b"][..1] == ["a"];
    assert TRANSACTION_ROOT != ["a"];
  }

  lemma NestedSubs()
    ensures ArtifactFingerprint(Sub(NESTED, ["a"])).Some? && ArtifactFingerprint(Sub(NESTED, ["a", "b"])).Some?
  {
    var outer, inner := Sub(NESTED, ["a"]), Sub(NESTED, ["a", "b"]);
    assert ["a"] + [] == ["a"] && ["a"] + ["b"] == ["a", "b"] && ["a", "b"] + [] == ["a", "b"];
    forall r | r in outer
      ensures r == [] || r == ["b"]
    {
      if |r| == 1 {
        assert ["a"] + r == ["a", r[0]];
      } else {
        assert |["a"] + r| == |r| + 1;
      }
    }
    assert outer[[]] == HOUSE && outer[["b"]] == LETTER && inner[[]] == LETTER;
  }

  lemma NestedOrder()
    ensures !StringLess(Posix(["a", "b"]), Posix(["a"]))
  {
    PosixExtends(["a"], ["a", "b"]);
    PrefixIsLess(Posix(["a"]), Posix(["a", "b"]));
    StringLessAsymmetric(Posix(["a"]), Posix(["a", "b"]));
  }

  /** In a run that is published, no target is altered. */
  lemma RunIsUnaltered(t: Disk, plan: Plan, u: Disk, left: int)
    requires Left(t, plan, u, left) && Loaded(u).Pending? && Loaded(u).transaction.plan == plan
    ensures !AlteredSince(t, u, plan)
  {
    var b, tx :| InRun(t, plan, u, b, tx) && left == WorkLeft(tx, u);
    PlanAccepted(b, tx, u);
    if AlteredSince(t, u, plan) {
      SomeAlteredRefused(t, u, plan, true);
    }
  }

  /** The pending plan is finished by a process that finds it. */
  method FinishPending(host: Host, tx: Transaction, ghost t: Disk, ghost left: int) returns (r: Outcome)
    requires Loaded(host.disk) == Pending(tx)
    modifies host
    ensures Left(t, tx.plan, old(host.disk), left) ==>
      TakenOn(t, tx.plan, old(host.budget), left, host.disk, r)
    ensures AlteredSince(t, old(host.disk), tx.plan) ==>
      r.Fail? && host.disk == old(host.disk)
    ensures OnlyPlanChanged(tx.plan, old(host.disk), host.disk)
  {
    ghost var b, run := t, Left(t, tx.plan, host.disk, left);
    if run {
      RunIsUnaltered(t, tx.plan, host.disk, left);
      ghost var b0, tx0 :| InRun(t, tx.plan, host.disk, b0, tx0) && left == WorkLeft(tx0, host.disk);
      UnderwayLoads(b0, tx0, host.disk);
      b := b0;
    }
    var removed;
    ghost var before := host.disk;
    r, removed := Finish(host, tx, b);
    ElseIsPlan(tx, before, host.disk);
    if run {
      if r.Pass? {
        FinishedOnlyTargets(t, b, tx, host.disk);
      } else {
        assert InRun(t, tx.plan, host.disk, b, tx);
      }
    }
  }

  /** A removal that was cut off is either not published or pending with its plan. */
  lemma LeftLoads(t: Disk, plan: Plan, u: Disk, left: int)
    ensures Left(t, plan, u, left) ==>
      || (Loaded(u) == NoneFound && Unpublished(t, u) && left == Need(u, plan))
      || (Loaded(u).Pending? && Loaded(u).transaction.plan == plan)
  {
    if Left(t, plan, u, left) && !(Unpublished(t, u) && left == Need(u, plan)) {
      var b, tx :| InRun(t, plan, u, b, tx) && left == WorkLeft(tx, u);
      UnderwayLoads(b, tx, u);
    }
  }
}
