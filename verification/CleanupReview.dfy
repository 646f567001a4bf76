/** What a fingerprint tells of a target, and what is refused because it is not what was reviewed. */
module CleanupReview {
  import opened FileTree
  import opened CleanupNames
  import opened CleanupRecords
  import opened CleanupTransaction

  /** The same kind of node with the same content or target and, unless it is a link, the same mode. */
  predicate SameNode(a: Node<Content>, b: Node<Content>) {
    a.kind == b.kind && (a.kind.Symlink? || a.mode == b.mode)
  }

  predicate SameBelow(m: Disk, n: Disk) {
    && (forall r | r in m && r != [] :: r in n && SameNode(m[r], n[r]))
    && (forall r | r in n && r != [] :: r in m)
  }

  /** A target of this kind that was `m` when it was reviewed is still that in `n`. */
  predicate Same(kind: TargetKind, m: Disk, n: Disk) {
    && [] in m && [] in n
    && match kind
       case LiveResultTree => m[[]].kind.Directory? && n[[]].kind.Directory? && SameBelow(m, n)
       case ArtifactFile | ArtifactTree =>
         SameNode(m[[]], n[[]]) && (m[[]].kind.Directory? ==> SameBelow(m, n))
       case DebResult | LiveResult | UpstreamResult => m[[]].kind.Regular? && m[[]].kind == n[[]].kind
  }

  lemma SameEntry(a: Node<Content>, b: Node<Content>)
    requires !a.kind.Special? && !b.kind.Special?
    ensures EntryOf(a) == EntryOf(b) <==> SameNode(a, b)
  {
  }

  lemma TreeTells(m: Disk, n: Disk, private: bool, foreignLinks: bool)
    requires TreeFingerprint(m, private, foreignLinks).Some? && TreeFingerprint(n, private, foreignLinks).Some?
    ensures m[[]].kind.Directory? && n[[]].kind.Directory?
    ensures TreeFingerprint(m, private, foreignLinks) == TreeFingerprint(n, private, foreignLinks) <==> SameBelow(m, n)
  {
    var x := map r | r in m && r != [] :: EntryOf(m[r]);
    var y := map r | r in n && r != [] :: EntryOf(n[r]);
    forall r | r in m && r in n && r != []
      ensures EntryOf(m[r]) == EntryOf(n[r]) <==> SameNode(m[r], n[r])
    {
      assert Fingerprintable(r, m[r], foreignLinks) && Fingerprintable(r, n[r], foreignLinks);
      SameEntry(m[r], n[r]);
    }
    if x == y {
      forall r | r in m && r != []
        ensures r in n && SameNode(m[r], n[r])
      {
        assert r in x && x[r] == y[r];
      }
      forall r | r in n && r != []
        ensures r in m
      {
        assert r in y && r in x;
      }
    }
  }

  /** Two fingerprints of one kind are equal exactly if what they were taken of is the same. */
  lemma FingerprintTells(kind: TargetKind, m: Disk, n: Disk)
    requires Fingerprint(kind, m).Some? && Fingerprint(kind, n).Some?
    ensures Fingerprint(kind, m) == Fingerprint(kind, n) <==> Same(kind, m, n)
  {
    match kind
    case LiveResultTree => TreeTells(m, n, true, false);
    case ArtifactFile | ArtifactTree =>
      if m[[]].kind.Directory? && n[[]].kind.Directory? {
        TreeTells(m, n, false, true);
      }
    case DebResult | LiveResult | UpstreamResult =>
  }

  // What may be removed at all

  /** How much deeper a text leads than where it starts, read name by name. */
  function Depth(parts: seq<string>): int {
    if parts == [] then 0
    else
      var last := parts[|parts| - 1];
      Depth(parts[..|parts| - 1]) + if last == "" || last == "." then 0 else if last == ".." then -1 else 1
  }

  /** Read name by name, the text never leads above `depth` directories up. */
  predicate StaysInside(depth: nat, parts: seq<string>) {
    forall j | 0 <= j <= |parts| :: depth + Depth(parts[..j]) >= 0
  }

  lemma {:induction false} DepthCons(parts: seq<string>)
    requires parts != []
    ensures Depth(parts) == Depth(parts[..1]) + Depth(parts[1..])
    decreases |parts|
  {
    var k := |parts| - 1;
    if k == 0 {
      assert parts[..1] == parts && parts[1..] == [];
    } else {
      assert parts[..k][..1] == parts[..1] && parts[..k][1..] == parts[1..][..k - 1];
      DepthCons(parts[..k]);
    }
  }

  lemma {:induction false} ContainedStays(depth: nat, parts: seq<string>)
    ensures Contained(depth, parts) <==> StaysInside(depth, parts)
    decreases |parts|
  {
    if parts == [] {
      assert parts[..0] == [];
    } else {
      var next := depth + Depth(parts[..1]);
      assert parts[..1][..0] == [] && parts[..1][|parts[..1]| - 1] == parts[0];
      if next >= 0 {
        ContainedStays(next, parts[1..]);
      }
      forall j | 1 <= j <= |parts|
        ensures depth + Depth(parts[..j]) == next + Depth(parts[1..][..j - 1])
      {
        assert parts[..j][..1] == parts[..1] && parts[..j][1..] == parts[1..][..j - 1];
        DepthCons(parts[..j]);
      }
      assert parts[..0] == [];
      if StaysInside(depth, parts) {
        assert depth + Depth(parts[..1]) >= 0;
        forall j | 0 <= j <= |parts[1..]|
          ensures next + Depth(parts[1..][..j]) >= 0
        {
          assert depth + Depth(parts[..j + 1]) >= 0;
        }
      }
      if next >= 0 && StaysInside(next, parts[1..]) {
        forall j | 0 <= j <= |parts|
          ensures depth + Depth(parts[..j]) >= 0
        {
          if j > 0 {
            assert next + Depth(parts[1..][..j - 1]) >= 0;
          }
        }
      }
    }
  }

  /** This user's own node, no device or socket, and nobody else may write to it. */
  predicate OwnNode(n: Node<Content>) {
    n.owned && !n.kind.Special? && (n.kind.Symlink? || n.mode % 4 < 2)
  }

  /** A node of a tree; in a tree of live results a link is relative and stays inside. */
  predicate SafeNode(kind: TargetKind, r: Path, n: Node<Content>) {
    && OwnNode(n)
    && (r != [] && kind == LiveResultTree && n.kind.Symlink? ==>
          (|n.kind.target| > 1 ==> n.kind.target[0] != "") && StaysInside(|r| - 1, n.kind.target))
  }

  /** What may be removed as a target: nothing of others, and only artifacts may be open to the group. */
  predicate Safe(kind: TargetKind, m: Disk) {
    && [] in m && SafeNode(kind, [], m[[]])
    && (kind == ArtifactFile || kind == ArtifactTree || m[[]].mode % 64 == 0)
    && (m[[]].kind.Directory? ==> forall r | r in m :: SafeNode(kind, r, m[r]))
    && (m[[]].kind.Directory? ==> kind == LiveResultTree || kind == ArtifactFile || kind == ArtifactTree)
    && (m[[]].kind.Regular? ==> kind != LiveResultTree)
    && !m[[]].kind.Symlink?
  }

  lemma WritableBit(mode: nat)
    ensures OtherWritable(mode) <==> mode % 4 >= 2
    ensures IsPrivate(mode) <==> mode % 64 == 0
    ensures mode % 64 == 0 ==> mode % 4 == 0
  {
  }

  lemma FingerprintableSafe(kind: TargetKind, r: Path, n: Node<Content>)
    requires r != []
    ensures Fingerprintable(r, n, kind != LiveResultTree) <==> SafeNode(kind, r, n)
  {
    WritableBit(n.mode);
    if n.kind.Symlink? {
      ContainedStays(|r| - 1, n.kind.target);
    }
  }

  lemma TreeSafe(kind: TargetKind, m: Disk)
    requires [] in m && m[[]].kind.Directory? && kind in {LiveResultTree, ArtifactFile, ArtifactTree}
    ensures TreeFingerprint(m, kind == LiveResultTree, kind != LiveResultTree).Some? <==> Safe(kind, m)
  {
    WritableBit(m[[]].mode);
    forall r | r in m && r != []
      ensures Fingerprintable(r, m[r], kind != LiveResultTree) <==> SafeNode(kind, r, m[r])
    {
      FingerprintableSafe(kind, r, m[r]);
    }
  }

  /** A fingerprint is taken exactly of what may be removed. */
  lemma FingerprintSafe(kind: TargetKind, m: Disk)
    ensures Fingerprint(kind, m).Some? <==> Safe(kind, m)
  {
    if [] in m {
      WritableBit(m[[]].mode);
      if m[[]].kind.Directory? && kind in {LiveResultTree, ArtifactFile, ArtifactTree} {
        TreeSafe(kind, m);
      }
    }
  }

  // What is refused

  /** A directory of this user that is closed to everybody else. */
  predicate PrivateAt(t: Disk, a: Path) {
    a in t && t[a].kind.Directory? && t[a].owned && t[a].mode % 64 == 0
  }

  /** Target `x`, reviewed on `t`, is there in `u` and is something else now, or its directories are not in order. */
  ghost predicate Altered(t: Disk, u: Disk, x: Target) {
    || (exists a | a < x.path :: !PrivateAt(u, a))
    || (x.path in u && !(Same(x.kind, Sub(t, x.path), Sub(u, x.path)) && Safe(x.kind, Sub(u, x.path))))
  }

  ghost predicate SomeAltered(t: Disk, u: Disk, plan: Plan) {
    exists i | 0 <= i < |plan.targets| :: Altered(t, u, plan.targets[i])
  }

  /** The plan was reviewed on `t`, and some target of it is altered in `u`. */
  ghost predicate AlteredSince(t: Disk, u: Disk, plan: Plan) {
    PlanStateOk(t, plan, false) && SomeAltered(t, u, plan)
  }

  lemma AlteredRefused(t: Disk, u: Disk, x: Target, allowAbsent: bool)
    requires TargetOk(t, x) && Altered(t, u, x)
    ensures !TargetStateOk(u, x, allowAbsent)
  {
    if TargetStateOk(u, x, allowAbsent) {
      forall a | a < x.path
        ensures PrivateAt(u, a)
      {
        assert a == x.path[..|a|];
      }
      FingerprintTells(x.kind, Sub(t, x.path), Sub(u, x.path));
      FingerprintSafe(x.kind, Sub(u, x.path));
    }
  }

  /** A plan that was reviewed on `t` is refused where any of its targets is altered. */
  lemma SomeAlteredRefused(t: Disk, u: Disk, plan: Plan, allowAbsent: bool)
    requires AlteredSince(t, u, plan)
    ensures !PlanStateOk(u, plan, allowAbsent)
  {
    var i :| 0 <= i < |plan.targets| && Altered(t, u, plan.targets[i]);
    AlteredRefused(t, u, plan.targets[i], allowAbsent);
  }

  // Directories that are not the reviewed ones

  /** Instead of the directory reviewed as `full`: another one, or the same with something else in it, or opened up. */
  predicate Other(kind: TargetKind, full: Disk, m: Disk) {
    && [] in m
    && ([] in full ==>
          || m[[]].inode != full[[]].inode || !Same(kind, full, m) || !Safe(kind, m)
          || (kind == LiveResultTree && m[[]].mode != 0x1c0))
  }

  ghost predicate ReviewedDirectory(b: Disk, tx: Transaction, i: nat) {
    i < |tx.plan.targets| && ReviewedTarget(b, tx, i) && RemovesDirectory(tx.plan.targets[i].kind)
  }

  /** Directory target `i`, reviewed on `b`, has another directory in its place. */
  ghost predicate OtherHere(b: Disk, tx: Transaction, t: Disk, i: nat) {
    && ReviewedDirectory(b, tx, i)
    && Other(tx.plan.targets[i].kind, Sub(b, tx.plan.targets[i].path), Sub(t, tx.plan.targets[i].path))
  }

  /** Another directory is staged, and its deletion has not begun. */
  ghost predicate OtherStaged(b: Disk, tx: Transaction, t: Disk, i: nat) {
    && ReviewedDirectory(b, tx, i) && PhasePath(tx, i) !in t
    && Other(tx.plan.targets[i].kind, Sub(b, tx.plan.targets[i].path), Sub(t, StagingPath(tx, i)))
  }

  /** What is staged is no part of the reviewed directory: its root is another. */
  ghost predicate OtherRoot(b: Disk, tx: Transaction, t: Disk, i: nat) {
    && ReviewedDirectory(b, tx, i) && StagingPath(tx, i) in t
    && (|| t[StagingPath(tx, i)].inode != b[tx.plan.targets[i].path].inode
        || !t[StagingPath(tx, i)].kind.Directory? || !t[StagingPath(tx, i)].owned)
  }

  ghost predicate Foreign(b: Disk, tx: Transaction, t: Disk, i: nat) {
    OtherHere(b, tx, t, i) || OtherStaged(b, tx, t, i) || OtherRoot(b, tx, t, i)
  }

  lemma OtherRefused(b: Disk, tx: Transaction, i: nat, m: Disk)
    requires ReviewedDirectory(b, tx, i)
    requires Other(tx.plan.targets[i].kind, Sub(b, tx.plan.targets[i].path), m)
    ensures i in tx.directories && !DirectoryOk(tx.plan.targets[i].kind, m, tx.directories[i])
  {
    var x := tx.plan.targets[i];
    RootOf(b, x.path);
    if DirectoryOk(x.kind, m, tx.directories[i]) {
      FingerprintTells(x.kind, Sub(b, x.path), m);
      FingerprintSafe(x.kind, m);
    }
  }

  lemma ReviewedRoot(b: Disk, tx: Transaction, i: nat)
    requires ReviewedDirectory(b, tx, i)
    ensures i in tx.directories && tx.directories[i].inode == b[tx.plan.targets[i].path].inode
  {
    var p := tx.plan.targets[i].path;
    assert p + [] == p && Sub(b, p)[[]] == b[p];
  }

  lemma SameRoot(s: Disk, t: Disk, p: Path)
    requires Sub(t, p) == Sub(s, p)
    ensures p in t <==> p in s
    ensures p in s ==> t[p] == s[p]
  {
    RootOf(s, p);
    RootOf(t, p);
    assert p + [] == p;
    if p in s {
      assert Sub(s, p)[[]] == s[p] && Sub(t, p)[[]] == t[p];
    }
  }

  /** Whether a foreign directory is met depends on what the target owns alone. */
  lemma ForeignByView(b: Disk, tx: Transaction, s: Disk, t: Disk, i: nat)
    requires i < |tx.plan.targets| && ViewOf(tx, t, i) == ViewOf(tx, s, i)
    ensures Foreign(b, tx, t, i) <==> Foreign(b, tx, s, i)
  {
    assert ViewOf(tx, t, i).here == ViewOf(tx, s, i).here;
    assert ViewOf(tx, t, i).staged == ViewOf(tx, s, i).staged;
    assert ViewOf(tx, t, i).phase == ViewOf(tx, s, i).phase;
    SameRoot(s, t, StagingPath(tx, i));
    SameRoot(s, t, PhasePath(tx, i));
  }

  // The loader

  /** A path of names alone. */
  predicate IsOrdinary(p: Path) {
    p != [] && forall name | name in p :: name != "" && name != "." && name != ".." && '/' !in name
  }

  /** The transaction root, private to this user, with nothing in it but what the transaction may have put there. */
  ghost predicate InOrder(t: Disk, tx: Transaction) {
    && PrivateAt(t, TRANSACTION_ROOT) && t[TRANSACTION_ROOT].mode == 0x1c0
    && MarkerPath(tx) in t && t[MarkerPath(tx)].kind == Regular(TransactionRecord(tx))
    && t[MarkerPath(tx)].owned && t[MarkerPath(tx)].mode == 0x180
    && (forall n | TRANSACTION_ROOT + [n] in t && n != MarkerName(tx.plan.cycle) ::
          exists i :: IsDirectoryTarget(tx.plan, i) && BookkeepingName(tx, i, n))
    && tx.plan.targets != [] && (forall i | 0 <= i < |tx.plan.targets| :: IsOrdinary(tx.plan.targets[i].path))
    && DistinctPaths(tx.plan.targets)
    && forall i | IsDirectoryTarget(tx.plan, i) :: NotBoth(t, tx, i) && PhaseInOrder(t, tx, i)
  }

  /** A phase is that of this target of this transaction, by every field of its record. */
  predicate PhaseInOrder(t: Disk, tx: Transaction, i: nat) {
    PhasePath(tx, i) in t ==>
      && i in tx.directories && t[PhasePath(tx, i)].owned && t[PhasePath(tx, i)].mode % 64 == 0
      && t[PhasePath(tx, i)].kind == Regular(PhaseRecord(
           Phase(tx.plan.cycle, i, tx.directories[i], StagingPath(tx, i), MarkerPath(tx), TransactionRecord(tx))))
  }

  predicate BookkeepingName(tx: Transaction, i: nat, n: string) {
    n == StagingName(tx.plan.cycle, i) || n == PhaseName(tx.plan.cycle, i)
  }

  /** A target is in its place, or staged or in its phase. */
  predicate NotBoth(t: Disk, tx: Transaction, i: nat)
    requires i < |tx.plan.targets|
  {
    tx.plan.targets[i].path in t ==> StagingPath(tx, i) !in t && PhasePath(tx, i) !in t
  }

  /** What the loader takes for pending is in order, and what it takes for nothing is nothing. */
  lemma LoadedInOrder(t: Disk)
    ensures Loaded(t).Pending? ==> InOrder(t, Loaded(t).transaction)
    ensures Loaded(t).NoneFound? && TRANSACTION_ROOT in t ==>
      PrivateAt(t, TRANSACTION_ROOT) && forall n :: TRANSACTION_ROOT + [n] !in t
  {
    if Loaded(t).Pending? {
      var tx := Loaded(t).transaction;
      forall n | TRANSACTION_ROOT + [n] in t && n != MarkerName(tx.plan.cycle)
        ensures exists i :: IsDirectoryTarget(tx.plan, i) && BookkeepingName(tx, i, n)
      {
        assert n in Children(t, TRANSACTION_ROOT) && ExpectedEntry(tx, n);
        var i :| i in tx.directories && BookkeepingName(tx, i, n);
        assert IsDirectoryTarget(tx.plan, i);
      }
      forall i: nat | IsDirectoryTarget(tx.plan, i)
        ensures NotBoth(t, tx, i) && PhaseInOrder(t, tx, i)
      {
        assert StagingOk(t, tx, i) && PresentTargetOk(t, tx, i);
      }
    }
  }

  lemma LoadedHere(t: Disk, b: Disk, i: nat)
    requires Loaded(t).Pending? && ReviewedDirectory(b, Loaded(t).transaction, i)
    ensures !OtherHere(b, Loaded(t).transaction, t, i)
  {
    var tx := Loaded(t).transaction;
    assert i in tx.directories && PresentTargetOk(t, tx, i);
    if OtherHere(b, tx, t, i) {
      RootOf(t, tx.plan.targets[i].path);
      OtherRefused(b, tx, i, Sub(t, tx.plan.targets[i].path));
    }
  }

  lemma LoadedStaged(t: Disk, b: Disk, i: nat)
    requires Loaded(t).Pending? && ReviewedDirectory(b, Loaded(t).transaction, i)
    ensures !OtherStaged(b, Loaded(t).transaction, t, i)
  {
    var tx := Loaded(t).transaction;
    assert i in tx.directories && StagingOk(t, tx, i);
    if OtherStaged(b, tx, t, i) {
      RootOf(t, StagingPath(tx, i));
      OtherRefused(b, tx, i, Sub(t, StagingPath(tx, i)));
    }
  }

  lemma LoadedRoot(t: Disk, b: Disk, i: nat)
    requires Loaded(t).Pending? && ReviewedDirectory(b, Loaded(t).transaction, i)
    ensures !OtherRoot(b, Loaded(t).transaction, t, i)
  {
    var tx := Loaded(t).transaction;
    ReviewedRoot(b, tx, i);
    assert StagingOk(t, tx, i);
    RootOf(t, StagingPath(tx, i));
    if StagingPath(tx, i) in t {
      assert StagingPath(tx, i) + [] == StagingPath(tx, i);
      assert Sub(t, StagingPath(tx, i))[[]] == t[StagingPath(tx, i)];
    }
  }

  /** And it never loads where a directory of the transaction is not the reviewed one. */
  lemma LoadedIsNotForeign(t: Disk, b: Disk, i: nat)
    requires Loaded(t).Pending? && ReviewedDirectory(b, Loaded(t).transaction, i)
    ensures !Foreign(b, Loaded(t).transaction, t, i)
  {
    LoadedHere(t, b, i);
    LoadedStaged(t, b, i);
    LoadedRoot(t, b, i);
  }
}
