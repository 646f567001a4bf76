/** What extraction leaves on disk, step by step. */
module PayloadDisk {
  import opened FileTree
  import opened PayloadLinks
  import opened PayloadMembers

  datatype Extracted = Extracted(kind: Kind<Bytes>, mode: nat)

  type Disk = map<Path, Extracted>

  const LINK_MODE: nat := 0x1ff

  /** The modes new directories get: the one a member goes into, and those above that one. */
  datatype Made = Made(direct: nat, above: nat)

  /** A member as it ends up on disk. */
  function OnDisk(x: Item): Extracted {
    if x.kind.Symlink? then Extracted(x.kind, LINK_MODE)
    else Extracted(x.kind, NormalizedMode(x.mode, x.kind.Directory?))
  }

  /** `q` is a member's name or an ancestor of one. */
  ghost predicate Reached(m: seq<Item>, q: Path) {
    exists i :: 0 <= i < |m| && q <= m[i].name
  }

  ghost predicate Named(m: seq<Item>, q: Path) {
    exists i :: 0 <= i < |m| && q == m[i].name
  }

  ghost predicate Below(m: seq<Item>, q: Path) {
    exists i :: 0 <= i < |m| && q < m[i].name
  }

  function MadeFor(q: Path, name: Path, made: Made): nat {
    if |q| + 1 < |name| then made.above else made.direct
  }

  /** The mode of a directory no member names: the first member below it decides; the root is made beforehand. */
  ghost function Implied(m: seq<Item>, q: Path, made: Made): nat {
    if q == [] || m == [] then made.direct
    else if Below(m[..|m| - 1], q) then Implied(m[..|m| - 1], q, made)
    else MadeFor(q, m[|m| - 1].name, made)
  }

  lemma {:induction false} ImpliedNext(m: seq<Item>, x: Item, q: Path, made: Made)
    ensures Implied(m + [x], q, made) ==
      if q == [] || Below(m, q) then Implied(m, q, made) else MadeFor(q, x.name, made)
  {
    assert (m + [x])[..|m|] == m;
  }

  /**
   * A directory no member names has the mode of the first member below it: the one
   * for its direct parent, or the one for the directories above that.
   */
  lemma {:induction false} FirstDecides(m: seq<Item>, q: Path, made: Made, i: nat)
    requires q != [] && i < |m| && q < m[i].name && forall j | 0 <= j < i :: !(q < m[j].name)
    ensures Implied(m, q, made) == if |m[i].name| == |q| + 1 then made.direct else made.above
    decreases |m|
  {
    var before := m[..|m| - 1];
    if i < |before| {
      assert q < before[i].name;
      FirstDecides(before, q, made, i);
    }
  }

  /**
   * The extracted tree: every member as it was sent, the directories above them,
   * with the modes they were made with when no member names them, and nothing else.
   */
  ghost predicate Mirrors(disk: Disk, m: seq<Item>, made: Made) {
    && (forall q :: q in disk <==> q == [] || Reached(m, q))
    && (forall i | 0 <= i < |m| :: m[i].name in disk && disk[m[i].name] == OnDisk(m[i]))
    && forall q | q in disk && !Named(m, q) :: disk[q] == Extracted(Directory, Implied(m, q, made))
  }

  // While the members are unpacked, links wait and directories keep the mode they were made with

  ghost predicate Awaited(m: seq<Item>, q: Path) {
    exists i :: 0 <= i < |m| && q == m[i].name && m[i].kind.Symlink?
  }

  function Unpacked(x: Item, made: Made): Extracted {
    if x.kind.Directory? then Extracted(Directory, made.direct) else OnDisk(x)
  }

  predicate HoldsUnpacked(e: Extracted, x: Item) {
    if x.kind.Directory? then e.kind.Directory? else e == OnDisk(x)
  }

  ghost predicate Unpacking(disk: Disk, m: seq<Item>, made: Made) {
    && (forall q :: q in disk <==> q == [] || (Reached(m, q) && !Awaited(m, q)))
    && (forall i | 0 <= i < |m| && !m[i].kind.Symlink? ::
          m[i].name in disk && HoldsUnpacked(disk[m[i].name], m[i]))
    && forall q | q in disk && !Named(m, q) :: disk[q] == Extracted(Directory, Implied(m, q, made))
  }

  function Ancestors(name: Path): (s: set<Path>)
    ensures forall q :: q in s <==> q < name
  {
    var s := set k | 0 <= k < |name| :: name[..k];
    assert forall q | q < name :: q == name[..|q|];
    s
  }

  /** mkdir with parents: the missing ancestors are made. */
  function WithParents(disk: Disk, name: Path, made: Made): (d: Disk)
    ensures forall q :: q in d <==> q in disk || q < name
    ensures forall q | q in disk :: d[q] == disk[q]
    ensures forall q | q in d && q !in disk :: d[q] == Extracted(Directory, MadeFor(q, name, made))
  {
    map q | q in disk.Keys + Ancestors(name) ::
      if q in disk then disk[q] else Extracted(Directory, MadeFor(q, name, made))
  }

  lemma {:induction false} NamedIsKind(m: seq<Item>, q: Path)
    ensures Named(m, q) <==> q in KindsOf(m)
  {
    KindsAt(m);
  }

  lemma ReachedNext(m: seq<Item>, x: Item, q: Path)
    ensures Reached(m + [x], q) <==> Reached(m, q) || q <= x.name
    ensures Named(m + [x], q) <==> Named(m, q) || q == x.name
    ensures Awaited(m + [x], q) <==> Awaited(m, q) || (q == x.name && x.kind.Symlink?)
  {
    var more := m + [x];
    if Reached(m, q) {
      var i :| 0 <= i < |m| && q <= m[i].name;
      assert more[i] == m[i];
    }
    if Named(m, q) {
      var i :| 0 <= i < |m| && q == m[i].name;
      assert more[i] == m[i];
    }
    if Awaited(m, q) {
      var i :| 0 <= i < |m| && q == m[i].name && m[i].kind.Symlink?;
      assert more[i] == m[i];
    }
    assert more[|m|] == x;
  }

  /** An admitted member's ancestors on disk are directories; its own place is taken only by an implied directory. */
  lemma {:induction false} PlaceOf(disk: Disk, m: seq<Item>, made: Made, x: Item)
    requires Unpacking(disk, m, made) && Distinct(m) && x.name != []
    requires x.name !in KindsOf(m) && ParentsAreDirectories(KindsOf(m), x.name)
    ensures forall q | q in disk && q < x.name :: disk[q].kind.Directory?
    ensures x.name in disk <==> Owns(KindsOf(m), x.name)
    ensures x.name in disk ==> disk[x.name].kind.Directory?
  {
    KindsAt(m);
    NamedIsKind(m, x.name);
    forall q | q in disk && q < x.name
      ensures disk[q].kind.Directory?
    {
      NamedIsKind(m, q);
      if Named(m, q) {
        var i :| 0 <= i < |m| && q == m[i].name;
        assert KindsOf(m)[q] == MemberOf(m[i].kind);
      }
    }
    if Owns(KindsOf(m), x.name) {
      var q :| q in KindsOf(m) && x.name <= q;
      var i :| 0 <= i < |m| && m[i].name == q;
      assert Reached(m, x.name);
      assert !Awaited(m, x.name);
    }
    if x.name in disk {
      var i :| 0 <= i < |m| && x.name <= m[i].name;
      assert m[i].name in KindsOf(m);
    }
  }

  lemma {:induction false} NothingAwaitedAbove(m: seq<Item>, x: Item, q: Path)
    requires Distinct(m) && ParentsAreDirectories(KindsOf(m), x.name) && q < x.name
    ensures !Awaited(m, q)
  {
    KindsAt(m);
  }

  /** The disk after one more member. */
  function Placed(disk: Disk, x: Item, made: Made): Disk {
    var d := WithParents(disk, x.name, made);
    if x.kind.Symlink? || (x.kind.Directory? && x.name in d) then d else d[x.name := Unpacked(x, made)]
  }

  lemma AwaitedIsNamed(m: seq<Item>, q: Path)
    ensures Awaited(m, q) ==> Named(m, q)
  {
  }

  lemma UnnamedIsBelow(m: seq<Item>, q: Path)
    requires !Named(m, q)
    ensures Reached(m, q) <==> Below(m, q)
  {
  }

  lemma {:induction false} PlacedKeys(disk: Disk, m: seq<Item>, made: Made, x: Item, q: Path)
    requires Unpacking(disk, m, made) && Distinct(m) && Admitted(KindsOf(m), x)
    ensures q in Placed(disk, x, made) <==> q == [] || (Reached(m + [x], q) && !Awaited(m + [x], q))
  {
    ReachedNext(m, x, q);
    PlaceOf(disk, m, made, x);
    if q < x.name {
      NothingAwaitedAbove(m, x, q);
    }
    NamedIsKind(m, x.name);
    AwaitedIsNamed(m, q);
  }

  lemma {:induction false} PlacedOthers(disk: Disk, m: seq<Item>, made: Made, x: Item)
    requires Unpacking(disk, m, made) && Distinct(m) && Admitted(KindsOf(m), x)
    ensures forall q | q in disk :: q in Placed(disk, x, made) && Placed(disk, x, made)[q] == disk[q]
  {
    PlaceOf(disk, m, made, x);
  }

  lemma {:induction false} PlacedUnnamed(disk: Disk, m: seq<Item>, made: Made, x: Item, q: Path)
    requires Unpacking(disk, m, made) && Distinct(m) && Admitted(KindsOf(m), x)
    requires q in Placed(disk, x, made) && !Named(m + [x], q)
    ensures Placed(disk, x, made)[q] == Extracted(Directory, Implied(m + [x], q, made))
  {
    PlaceOf(disk, m, made, x);
    ReachedNext(m, x, q);
    ImpliedNext(m, x, q, made);
    UnnamedIsBelow(m, q);
    AwaitedIsNamed(m, q);
  }

  lemma {:induction false} PlacedNext(disk: Disk, m: seq<Item>, made: Made, x: Item)
    requires Unpacking(disk, m, made) && Distinct(m) && Admitted(KindsOf(m), x)
    ensures Unpacking(Placed(disk, x, made), m + [x], made)
  {
    var d, more := Placed(disk, x, made), m + [x];
    forall q
      ensures q in d <==> q == [] || (Reached(more, q) && !Awaited(more, q))
    {
      PlacedKeys(disk, m, made, x, q);
    }
    PlaceOf(disk, m, made, x);
    PlacedOthers(disk, m, made, x);
    forall i | 0 <= i < |more| && !more[i].kind.Symlink?
      ensures more[i].name in d && HoldsUnpacked(d[more[i].name], more[i])
    {
      if i < |m| {
        assert more[i] == m[i];
      }
    }
    forall q | q in d && !Named(more, q)
      ensures d[q] == Extracted(Directory, Implied(more, q, made))
    {
      PlacedUnnamed(disk, m, made, x, q);
    }
  }

  // Then the links are made and the directories closed

  ghost predicate AreLinksOf(m: seq<Item>, links: seq<Item>) {
    && Distinct(links)
    && (forall i | 0 <= i < |links| :: links[i] in m && links[i].kind.Symlink?)
    && forall i | 0 <= i < |m| && m[i].kind.Symlink? :: m[i] in links
  }

  lemma LinkNext(m: seq<Item>, links: seq<Item>, x: Item)
    requires AreLinksOf(m, links) && Distinct(m + [x])
    ensures AreLinksOf(m + [x], if x.kind.Symlink? then links + [x] else links)
  {
    var more := m + [x];
    assert more[|m|] == x && forall i | 0 <= i < |m| :: more[i] == m[i];
    forall i | 0 <= i < |links|
      ensures links[i] in more && links[i].name != x.name
    {
      var j :| 0 <= j < |m| && m[j] == links[i];
      assert more[j] == m[j];
    }
    if x.kind.Symlink? {
      var ls := links + [x];
      assert ls[|links|] == x && forall i | 0 <= i < |links| :: ls[i] == links[i];
    }
  }

  /** The disk with the links made at their places. */
  ghost predicate Linked(disk: Disk, base: Disk, links: seq<Item>, k: nat)
    requires k <= |links|
  {
    && (forall q :: q in disk <==> q in base || exists i :: 0 <= i < k && links[i].name == q)
    && (forall q | q in base :: disk[q] == base[q])
    && forall i | 0 <= i < k :: links[i].name in disk && disk[links[i].name] == OnDisk(links[i])
  }

  lemma LinkedNext(disk: Disk, base: Disk, links: seq<Item>, k: nat)
    requires k < |links| && Linked(disk, base, links, k) && Distinct(links) && links[k].name !in base
    ensures links[k].name !in disk && Linked(disk[links[k].name := OnDisk(links[k])], base, links, k + 1)
  {
    var d := disk[links[k].name := OnDisk(links[k])];
    forall q
      ensures q in d <==> q in base || exists i :: 0 <= i < k + 1 && links[i].name == q
    {
      assert q == links[k].name ==> 0 <= k < k + 1 && links[k].name == q;
    }
  }

  /** No link's place is taken while the members are unpacked. */
  lemma LinkPlacesFree(disk: Disk, m: seq<Item>, made: Made, links: seq<Item>)
    requires Unpacking(disk, m, made) && AreLinksOf(m, links) && forall i | 0 <= i < |m| :: m[i].name != []
    ensures forall i | 0 <= i < |links| :: links[i].name !in disk
  {
    forall i | 0 <= i < |links|
      ensures links[i].name !in disk
    {
      var j :| 0 <= j < |m| && m[j] == links[i];
      assert Awaited(m, m[j].name);
    }
  }

  lemma LinkedKeys(disk: Disk, base: Disk, m: seq<Item>, made: Made, links: seq<Item>, q: Path)
    requires Unpacking(base, m, made) && AreLinksOf(m, links) && Linked(disk, base, links, |links|)
    ensures q in disk <==> q == [] || Reached(m, q)
    ensures q in disk && q !in base ==> Named(m, q)
  {
    if Awaited(m, q) {
      var i :| 0 <= i < |m| && q == m[i].name && m[i].kind.Symlink?;
      var j :| 0 <= j < |links| && links[j] == m[i];
      assert links[j].name == q && Reached(m, q);
    }
    if q in disk && q !in base {
      var j :| 0 <= j < |links| && links[j].name == q;
      var i :| 0 <= i < |m| && m[i] == links[j];
      assert Reached(m, q) && Named(m, q);
    }
  }

  /** The disk once every member directory is closed to mode 0o700. */
  ghost predicate Closed(disk: Disk, base: Disk, kinds: map<Path, Member>) {
    && disk.Keys == base.Keys
    && forall q | q in base :: disk[q] ==
         if q in kinds && kinds[q] == DirectoryMember then Extracted(base[q].kind, 0x1c0) else base[q]
  }

  lemma LinkedMember(disk: Disk, base: Disk, m: seq<Item>, made: Made, links: seq<Item>, i: nat)
    requires Unpacking(base, m, made) && AreLinksOf(m, links) && Linked(disk, base, links, |links|) && i < |m|
    ensures m[i].name in disk
    ensures HoldsUnpacked(disk[m[i].name], m[i])
  {
    if m[i].kind.Symlink? {
      var j :| 0 <= j < |links| && links[j] == m[i];
      assert links[j].name == m[i].name;
    }
  }

  lemma {:induction false} ClosedMirrors(disk: Disk, linked: Disk, base: Disk, m: seq<Item>, made: Made,
                                         links: seq<Item>)
    requires Unpacking(base, m, made) && AreLinksOf(m, links) && Linked(linked, base, links, |links|) && Distinct(m)
    requires Closed(disk, linked, KindsOf(m))
    ensures Mirrors(disk, m, made)
  {
    KindsAt(m);
    forall q
      ensures q in disk <==> q == [] || Reached(m, q)
      ensures q in disk && !Named(m, q) ==> disk[q] == Extracted(Directory, Implied(m, q, made))
    {
      LinkedKeys(linked, base, m, made, links, q);
      NamedIsKind(m, q);
      assert q in disk <==> q in linked;
    }
    forall i | 0 <= i < |m|
      ensures m[i].name in disk && disk[m[i].name] == OnDisk(m[i])
    {
      LinkedMember(linked, base, m, made, links, i);
      assert KindsOf(m)[m[i].name] == MemberOf(m[i].kind);
    }
  }
}
