/** Reviewed cleanup plans, the records that bind them, and fingerprints of what they remove. */
module CleanupRecords {
  import opened Wrappers
  import opened FileTree
  import opened CleanupNames

  /** What a regular file holds: ordinary data, or one of the two records. */
  datatype Content =
    | Data(bytes: string)
    | TransactionRecord(transaction: Transaction)
    | PhaseRecord(phase: Phase)

  datatype TargetKind = ArtifactFile | ArtifactTree | DebResult | LiveResult | LiveResultTree | UpstreamResult

  datatype Target = Target(kind: TargetKind, path: Path, fingerprint: Digest)

  datatype Plan = Plan(cycle: string, targets: seq<Target>)

  datatype DirectoryState = DirectoryState(inode: nat, fingerprint: Digest)

  /** `directories` holds the state of each directory target, by the target's index. */
  datatype Transaction = Transaction(plan: Plan, directories: map<nat, DirectoryState>)

  /** `started` is the marker's content, in place of its digest. */
  datatype Phase =
    Phase(cycle: string, index: nat, state: DirectoryState, staging: Path, marker: Path, started: Content)

  type Disk = Tree<Content>

  const PRIVATE_DIRECTORY: nat := 448  // 0o700
  const PRIVATE_FILE: nat := 384       // 0o600

  /** No permission for the group or for others. */
  predicate IsPrivate(mode: nat) {
    mode % 64 == 0
  }

  predicate OtherWritable(mode: nat) {
    mode / 2 % 2 == 1
  }

  predicate OwnedDirectory(n: Node<Content>, private: bool) {
    n.kind.Directory? && n.owned && if private then IsPrivate(n.mode) else !OtherWritable(n.mode)
  }

  predicate CleanupFile(n: Node<Content>) {
    n.kind.Regular? && n.owned && IsPrivate(n.mode)
  }

  predicate RemovesDirectory(kind: TargetKind) {
    kind == LiveResultTree || kind == ArtifactTree
  }

  // Fingerprints

  datatype Entry = DirectoryEntry(mode: nat) | FileEntry(mode: nat, content: Content) | LinkEntry(target: seq<string>)

  /** A digest, as the value that is digested. */
  datatype Digest =
    | FileDigest(content: Content)
    | TreeDigest(entries: map<Path, Entry>)
    | ArtifactDigest(mode: nat, body: Digest)

  /** A relative link that never climbs above the tree it lies in. */
  predicate Contained(depth: nat, parts: seq<string>)
    decreases parts
  {
    if parts == [] then true
    else if parts[0] == "" || parts[0] == "." then Contained(depth, parts[1..])
    else if parts[0] == ".." then depth > 0 && Contained(depth - 1, parts[1..])
    else Contained(depth + 1, parts[1..])
  }

  predicate Fingerprintable(r: Path, n: Node<Content>, foreignLinks: bool)
    requires r != []
  {
    n.owned &&
    match n.kind
    case Symlink(target) => foreignLinks || ((|target| > 1 ==> target[0] != "") && Contained(|r| - 1, target))
    case Directory => !OtherWritable(n.mode)
    case Regular(_) => !OtherWritable(n.mode)
    case Special => false
  }

  function EntryOf(n: Node<Content>): Entry {
    match n.kind
    case Directory => DirectoryEntry(n.mode)
    case Regular(content) => FileEntry(n.mode, content)
    case Symlink(target) => LinkEntry(target)
    case Special => LinkEntry([])
  }

  function TreeFingerprint(m: Disk, private: bool, foreignLinks: bool): Option<Digest> {
    if [] !in m || !OwnedDirectory(m[[]], private) then None
    else if exists r | r in m && r != [] :: !Fingerprintable(r, m[r], foreignLinks) then None
    else Some(TreeDigest(map r | r in m && r != [] :: EntryOf(m[r])))
  }

  function ArtifactFingerprint(m: Disk): Option<Digest> {
    if [] !in m || !m[[]].owned || OtherWritable(m[[]].mode) then None
    else match m[[]].kind
      case Directory =>
        var content := TreeFingerprint(m, false, true);
        if content.None? then None else Some(ArtifactDigest(m[[]].mode, content.value))
      case Regular(content) => Some(ArtifactDigest(m[[]].mode, FileDigest(content)))
      case _ => None
  }

  /** The fingerprint a plan records for a target whose subtree is `m`; None where the source raises. */
  function Fingerprint(kind: TargetKind, m: Disk): Option<Digest> {
    match kind
    case LiveResultTree => TreeFingerprint(m, true, false)
    case ArtifactFile | ArtifactTree => ArtifactFingerprint(m)
    case DebResult | LiveResult | UpstreamResult =>
      if [] in m && CleanupFile(m[[]]) then Some(FileDigest(m[[]].kind.content)) else None
  }

  // Where a transaction keeps its files

  function MarkerPath(tx: Transaction): Path {
    TRANSACTION_ROOT + [MarkerName(tx.plan.cycle)]
  }

  function StagingPath(tx: Transaction, i: nat): Path {
    TRANSACTION_ROOT + [StagingName(tx.plan.cycle, i)]
  }

  function PhasePath(tx: Transaction, i: nat): Path {
    TRANSACTION_ROOT + [PhaseName(tx.plan.cycle, i)]
  }

  function PhaseFor(tx: Transaction, i: nat, started: Content): Content
    requires i in tx.directories
  {
    PhaseRecord(Phase(tx.plan.cycle, i, tx.directories[i], StagingPath(tx, i), MarkerPath(tx), started))
  }

  // Checks on a plan

  predicate NormalizedPath(p: Path) {
    p != [] && forall part | part in p :: part != "" && part != "." && part != ".." && '/' !in part
  }

  predicate Canonical(targets: seq<Target>) {
    forall i, j | 0 <= i < j < |targets| :: !StringLess(Posix(targets[j].path), Posix(targets[i].path))
  }

  predicate DistinctPaths(targets: seq<Target>) {
    forall i, j | 0 <= i < j < |targets| :: targets[i].path != targets[j].path
  }

  predicate PlanRecordOk(plan: Plan) {
    && IsCycleName(plan.cycle)
    && plan.targets != []
    && (forall i | 0 <= i < |plan.targets| :: NormalizedPath(plan.targets[i].path))
    && DistinctPaths(plan.targets)
    && Canonical(plan.targets)
  }

  predicate IsDirectoryTarget(plan: Plan, i: nat) {
    i < |plan.targets| && RemovesDirectory(plan.targets[i].kind)
  }

  predicate TransactionRecordOk(tx: Transaction) {
    && PlanRecordOk(tx.plan)
    && (forall i | i in tx.directories :: IsDirectoryTarget(tx.plan, i) && tx.directories[i].inode > 0)
    && (forall i | 0 <= i < |tx.plan.targets| :: IsDirectoryTarget(tx.plan, i) ==> i in tx.directories)
  }

  /** Every ancestor of `p`, the state root included, is a private directory of this user. */
  predicate ParentsOk(t: Disk, p: Path) {
    p != [] && forall k | 0 <= k < |p| :: p[..k] in t && OwnedDirectory(t[p[..k]], true)
  }

  predicate TargetOk(t: Disk, target: Target) {
    ParentsOk(t, target.path) && Fingerprint(target.kind, Sub(t, target.path)) == Some(target.fingerprint)
  }

  predicate TargetStateOk(t: Disk, target: Target, allowAbsent: bool) {
    && ParentsOk(t, target.path)
    && if target.path in t then TargetOk(t, target) else allowAbsent
  }

  predicate PlanStateOk(t: Disk, plan: Plan, allowAbsent: bool) {
    forall i | 0 <= i < |plan.targets| :: TargetStateOk(t, plan.targets[i], allowAbsent)
  }

  /** The identity and content a directory had when the transaction was published. */
  predicate DirectoryOk(kind: TargetKind, m: Disk, state: DirectoryState) {
    && [] in m
    && OwnedDirectory(m[[]], kind != ArtifactTree)
    && (kind != ArtifactTree ==> m[[]].mode == PRIVATE_DIRECTORY)
    && m[[]].inode == state.inode
    && Fingerprint(kind, m) == Some(state.fingerprint)
  }
}
