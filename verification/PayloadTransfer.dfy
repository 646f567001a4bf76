/** write_archive, and a payload's way from one tree to another. */
module PayloadTransfer {
  import opened Wrappers
  import opened FileTree
  import opened PayloadLinks
  import opened PayloadMembers
  import opened PayloadListing
  import opened PayloadAcceptance
  import opened PayloadManifest
  import opened PayloadDisk
  import opened PayloadRuns
  import opened PayloadResolve
  import opened PayloadExtract

  /** The source still is the node the manifest was made from. */
  predicate Unchanged(now: Tree<Bytes>, x: Listed) {
    && x.source in now && now[x.source].inode == x.inode
    && var kind := now[x.source].kind;
       match x.item.kind {
         case Directory => kind.Directory?
         case Regular(content) => kind.Regular? && |kind.content| == |content|
         case Symlink(target) => kind == x.item.kind
         case Special => false
       }
  }

  /** The member written for a manifest entry, from the node as it is now. */
  function Written(now: Tree<Bytes>, x: Listed): Item
    requires x.source in now
  {
    var node := now[x.source];
    var mode := if node.kind.Symlink? then LINK_MODE else NormalizedMode(node.mode, node.kind.Directory?);
    Item(x.item.name, node.kind, mode)
  }

  ghost predicate AllWritten(now: Tree<Bytes>, manifest: seq<Listed>, members: seq<Item>) {
    && |members| == |manifest|
    && forall i | 0 <= i < |manifest| :: manifest[i].source in now && members[i] == Written(now, manifest[i])
  }

  /** At the last look the source has its mode too, and its times are those of the first. */
  predicate Untouched(after: Tree<Bytes>, touched: set<Path>, x: Listed) {
    Unchanged(after, x) && after[x.source].mode == x.item.mode && x.source !in touched
  }

  /**
   * write_archive: every manifest entry as a member, unless one is no longer what it
   * was when its turn comes, in `now`, or at the last look, in `after`, where
   * `touched` has the paths whose modification or change time has moved.
   */
  method WriteArchive(now: Tree<Bytes>, after: Tree<Bytes>, touched: set<Path>, manifest: seq<Listed>)
      returns (r: Result<seq<Item>, string>)
    requires forall x | x in manifest :: !x.item.kind.Special?
    ensures r.Ok? <==> forall x | x in manifest :: Unchanged(now, x) && Untouched(after, touched, x)
    ensures r.Ok? ==> AllWritten(now, manifest, r.value)
  {
    var members :- Stream(now, manifest);
    for k := 0 to |manifest|
      invariant forall i | 0 <= i < k :: Untouched(after, touched, manifest[i])
    {
      var x := manifest[k];
      assert x in manifest;
      if x.source !in after {
        return Err("payload input disappeared while streaming");
      }
      var current := after[x.source];
      if current.inode != x.inode || !SameSize(current.kind, x.item.kind) || current.mode != x.item.mode
        || x.source in touched
      {
        return Err("payload input changed while streaming");
      }
      if current.kind.Symlink? && current.kind != x.item.kind {
        return Err("payload symbolic link changed");
      }
    }
    return Ok(members);
  }

  /** The same type of node, and the same size. */
  predicate SameSize(a: Kind<Bytes>, b: Kind<Bytes>) {
    match b
    case Directory => a.Directory?
    case Regular(content) => a.Regular? && |a.content| == |content|
    case Symlink(_) => a.Symlink?
    case Special => false
  }

  /** The members, one by one, each from its source as it is then. */
  method Stream(now: Tree<Bytes>, manifest: seq<Listed>) returns (r: Result<seq<Item>, string>)
    requires forall x | x in manifest :: !x.item.kind.Special?
    ensures r.Ok? <==> forall x | x in manifest :: Unchanged(now, x)
    ensures r.Ok? ==> AllWritten(now, manifest, r.value)
  {
    var members: seq<Item> := [];
    for k := 0 to |manifest|
      invariant forall i | 0 <= i < k :: Unchanged(now, manifest[i])
      invariant |members| == k && forall i | 0 <= i < k :: members[i] == Written(now, manifest[i])
    {
      var x := manifest[k];
      assert x in manifest;
      if x.source !in now {
        return Err("cannot inspect payload input");
      }
      var current := now[x.source];
      if current.inode != x.inode || MemberOf(current.kind) != MemberOf(x.item.kind) || current.kind.Special? {
        return Err("payload input changed after validation");
      }
      match x.item.kind {
        case Directory =>
          members := members + [Item(x.item.name, Directory, NormalizedMode(current.mode, true))];
        case Regular(content) =>
          if |current.kind.content| != |content| {
            return Err("payload input changed while opened");
          }
          members := members + [Item(x.item.name, current.kind, NormalizedMode(current.mode, false))];
        case Symlink(target) =>
          if current.kind.target != target {
            return Err("payload symbolic link changed");
          }
          members := members + [Item(x.item.name, current.kind, LINK_MODE)];
      }
    }
    return Ok(members);
  }

  /** Alike in everything the checks look at. */
  predicate SameToChecks(a: Item, b: Item) {
    && a.name == b.name && Size(a) == Size(b) && MemberOf(a.kind) == MemberOf(b.kind)
    && (a.kind.Special? <==> b.kind.Special?) && (a.kind.Symlink? ==> a.kind == b.kind)
  }

  ghost predicate Alike(a: seq<Item>, b: seq<Item>) {
    |a| == |b| && forall i | 0 <= i < |a| :: SameToChecks(a[i], b[i])
  }

  lemma WrittenAlike(now: Tree<Bytes>, x: Listed)
    requires Unchanged(now, x)
    ensures SameToChecks(x.item, Written(now, x))
  {
  }

  lemma {:induction false} AlikeTotals(a: seq<Item>, b: seq<Item>)
    requires Alike(a, b)
    ensures Total(a) == Total(b) && PayloadOf(a) == PayloadOf(b)
  {
    if a != [] {
      var k := |a| - 1;
      AlikeTotals(a[..k], b[..k]);
      assert MemberOf(a[k].kind) == MemberOf(b[k].kind);
    }
  }

  lemma AlikeFits(a: seq<Item>, b: seq<Item>, l: Limits)
    requires Alike(a, b) && Fits(a, l)
    ensures Fits(b, l)
  {
    AlikeTotals(a, b);
    forall i | 0 <= i < |b|
      ensures ItemOk(b[i])
    {
      assert ItemOk(a[i]) && a[i].name == b[i].name;
    }
    forall i, j | 0 <= i < |b| && 0 <= j < |b| && b[i].name < b[j].name
      ensures b[i].kind.Directory?
    {
      assert a[i].name < a[j].name;
    }
  }

  lemma ResolvesIsInside(p: Payload)
    requires forall q | q in p.links :: q != [] && Resolves(p, q)
    ensures forall q | q in p.links :: Inside(p, q)
  {
    forall q | q in p.links
      ensures Inside(p, q)
    {
      var n :| Arrives(p, Start(p, q), n) && |Run(p, Start(p, q), n).used| <= |p.links|;
    }
  }

  lemma AlikeExtracts(a: seq<Item>, b: seq<Item>, l: Limits)
    requires Alike(a, b) && Fits(a, l) && AllResolve(a)
    ensures Fits(b, l) && AllInside(b)
  {
    AlikeFits(a, b, l);
    AlikeTotals(a, b);
    ResolvesIsInside(PayloadOf(b));
  }

  /**
   * A manifest and the archive written from it agree with the extractor: whatever
   * of the tree has changed meanwhile, an archive that is written is extracted.
   */
  lemma {:induction false} ArchiveExtracts(now: Tree<Bytes>, manifest: seq<Listed>, l: Limits, members: seq<Item>)
    requires Fits(Items(manifest), l) && AllResolve(Items(manifest))
    requires |members| == |manifest|
    requires forall i | 0 <= i < |manifest| :: Unchanged(now, manifest[i]) && members[i] == Written(now, manifest[i])
    ensures Fits(members, l) && AllInside(members)
  {
    forall i | 0 <= i < |members|
      ensures SameToChecks(Items(manifest)[i], members[i])
    {
      WrittenAlike(now, manifest[i]);
    }
    AlikeExtracts(Items(manifest), members, l);
  }

  /** Where a node of the payload arrives: with its kind, content and target, and its mode normalised. */
  ghost predicate ArrivedAt(t: Tree<Bytes>, entries: seq<Entry>, s: Slot, disk: Disk)
    requires InPayload(t, entries, s)
  {
    var node, q := t[entries[s.0].source + s.1], entries[s.0].archive + s.1;
    && q in disk && disk[q].kind == node.kind
    && if node.kind.Symlink? then disk[q].mode == 0x1ff
       else IsNormalized(node.mode, node.kind.Directory?, disk[q].mode)
  }

  /** The payload and nothing else: each node at its place, and bare directories above. */
  ghost predicate Transferred(t: Tree<Bytes>, entries: seq<Entry>, disk: Disk, made: Made) {
    && (forall s: Slot | InPayload(t, entries, s) :: ArrivedAt(t, entries, s, disk))
    && forall q | q in disk :: InTransfer(t, entries, disk, made, q)
  }

  /** A directory with one of the modes new directories get. */
  predicate IsMade(e: Extracted, made: Made) {
    e.kind.Directory? && (e.mode == made.direct || e.mode == made.above)
  }

  lemma {:induction false} ImpliedIsMade(m: seq<Item>, q: Path, made: Made)
    ensures IsMade(Extracted(Directory, Implied(m, q, made)), made)
  {
    if q != [] && m != [] {
      ImpliedIsMade(m[..|m| - 1], q, made);
    }
  }

  /** `q` is a node's place, or a directory made on the way to one. */
  ghost predicate InTransfer(t: Tree<Bytes>, entries: seq<Entry>, disk: Disk, made: Made, q: Path)
    requires q in disk
  {
    || (exists s: Slot :: InPayload(t, entries, s) && q == entries[s.0].archive + s.1)
    || (IsMade(disk[q], made)
          && (q == [] || exists s: Slot :: InPayload(t, entries, s) && q < entries[s.0].archive + s.1))
  }

  lemma MemberSlots(t: Tree<Bytes>, entries: seq<Entry>, at: seq<Slot>, manifest: seq<Listed>, members: seq<Item>)
    requires Lists(t, entries, at, manifest) && |members| == |manifest|
    requires forall i | 0 <= i < |manifest| :: manifest[i].source in t && members[i] == Written(t, manifest[i])
    ensures forall i | 0 <= i < |members| ::
      InPayload(t, entries, at[i]) && members[i].name == entries[at[i].0].archive + at[i].1
  {
    forall i | 0 <= i < |members|
      ensures InPayload(t, entries, at[i]) && members[i].name == entries[at[i].0].archive + at[i].1
    {
      assert manifest[i] == ListedAt(t, entries, at[i]);
    }
  }

  lemma NothingElse(t: Tree<Bytes>, entries: seq<Entry>, at: seq<Slot>, members: seq<Item>, disk: Disk, made: Made,
                    q: Path)
    requires |members| == |at| && forall i | 0 <= i < |members| ::
      InPayload(t, entries, at[i]) && members[i].name == entries[at[i].0].archive + at[i].1
    requires q in disk && (q == [] || Reached(members, q))
    requires !Named(members, q) ==> IsMade(disk[q], made)
    ensures InTransfer(t, entries, disk, made, q)
  {
    if Named(members, q) {
      var j :| 0 <= j < |members| && q == members[j].name;
      assert InPayload(t, entries, at[j]);
    } else if q != [] {
      var i :| 0 <= i < |members| && q <= members[i].name;
      assert q != members[i].name && InPayload(t, entries, at[i]);
    }
  }

  lemma NodeArrived(t: Tree<Bytes>, entries: seq<Entry>, s: Slot, x: Item, disk: Disk)
    requires InPayload(t, entries, s) && x == Written(t, ListedAt(t, entries, s))
    requires x.name in disk && disk[x.name] == OnDisk(x)
    ensures ArrivedAt(t, entries, s, disk)
  {
    var node := t[entries[s.0].source + s.1];
    NormalizedTwice(node.mode, node.kind.Directory?);
  }

  /** What is written normalised is extracted normalised again. */
  lemma NormalizedTwice(mode: nat, directory: bool)
    ensures IsNormalized(mode, directory, NormalizedMode(NormalizedMode(mode, directory), directory))
  {
    NormalizedBits(mode, directory);
    NormalizedBits(NormalizedMode(mode, directory), directory);
  }

  lemma MirrorIsTransfer(t: Tree<Bytes>, entries: seq<Entry>, at: seq<Slot>, manifest: seq<Listed>,
                         members: seq<Item>, disk: Disk, made: Made)
    requires Lists(t, entries, at, manifest) && Complete(t, entries, at) && |members| == |manifest|
    requires forall i | 0 <= i < |manifest| :: manifest[i].source in t && members[i] == Written(t, manifest[i])
    requires Mirrors(disk, members, made)
    ensures Transferred(t, entries, disk, made)
  {
    MemberSlots(t, entries, at, manifest, members);
    forall s: Slot | InPayload(t, entries, s)
      ensures ArrivedAt(t, entries, s, disk)
    {
      assert s in at;
      var i :| 0 <= i < |at| && at[i] == s;
      NodeArrived(t, entries, s, members[i], disk);
    }
    forall q | q in disk
      ensures InTransfer(t, entries, disk, made, q)
    {
      ImpliedIsMade(members, q, made);
      NothingElse(t, entries, at, members, disk, made, q);
    }
  }

  lemma StillThere(t: Tree<Bytes>, entries: seq<Entry>, l: Limits, at: seq<Slot>, manifest: seq<Listed>)
    requires SentAs(t, entries, l, at, manifest)
    ensures forall x | x in manifest :: !x.item.kind.Special? && Untouched(t, {}, x)
  {
    forall x | x in manifest
      ensures !x.item.kind.Special? && Untouched(t, {}, x)
    {
      var i :| 0 <= i < |manifest| && manifest[i] == x;
      assert ItemOk(Items(manifest)[i]) && x == ListedAt(t, entries, at[i]);
    }
  }

  /**
   * A payload whose tree holds still arrives exactly when it can be sent: the
   * extractor never refuses what the writer accepts, and what is on disk then is
   * the payload.  It can be sent exactly if it is acceptable: what the tree and the
   * entries say decides.
   */
  method Transfer(t: Tree<Bytes>, entries: seq<Entry>, l: Limits, made: Made, python: Python)
      returns (r: Result<Disk, string>)
    requires WellFormed(t)
    ensures r.Ok? <==> Sendable(t, entries, l)
    ensures r.Ok? <==> Acceptable(t, entries, l)
    ensures r.Ok? ==> Transferred(t, entries, r.value, made)
  {
    SendableIsAcceptable(t, entries, l);
    var manifest, at := Manifest(t, entries, l);
    if manifest.Err? {
      return Err(manifest.error);
    }
    StillThere(t, entries, l, at, manifest.value);
    var archive := WriteArchive(t, t, {}, manifest.value);
    var members := archive.value;
    ArchiveExtracts(t, manifest.value, l, members);
    r := Extract(members, l, made, python);
    MirrorIsTransfer(t, entries, at, manifest.value, members, r.value, made);
  }
}
