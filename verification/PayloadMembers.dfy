/** Which lists of members a payload archive may hold: one predicate that writer and extractor are measured by. */
module PayloadMembers {
  import opened FileTree
  import opened PayloadLinks
  import opened PayloadGraph

  type Bytes = seq<bv8>

  datatype Item = Item(name: Path, kind: Kind<Bytes>, mode: nat)

  datatype Limits = Limits(members: nat, bytes: nat)

  function Size(x: Item): nat {
    if x.kind.Regular? then |x.kind.content| else 0
  }

  function Total(m: seq<Item>): nat {
    if m == [] then 0 else Total(m[..|m| - 1]) + Size(m[|m| - 1])
  }

  function MemberOf(kind: Kind<Bytes>): Member {
    if kind.Directory? then DirectoryMember else if kind.Symlink? then LinkMember else FileMember
  }

  function KindsOf(m: seq<Item>): map<Path, Member> {
    if m == [] then map[] else KindsOf(m[..|m| - 1])[m[|m| - 1].name := MemberOf(m[|m| - 1].kind)]
  }

  function LinksOf(m: seq<Item>): map<Path, seq<string>> {
    if m == [] then map[]
    else
      var links, x := LinksOf(m[..|m| - 1]), m[|m| - 1];
      if x.kind.Symlink? then links[x.name := x.kind.target] else links
  }

  function PayloadOf(m: seq<Item>): Payload {
    Payload(KindsOf(m), LinksOf(m))
  }

  /** archive_path: a non-empty relative path in normal form. */
  predicate ArchivePath(q: Path) {
    q != [] && forall part | part in q :: part != "" && part != "." && part != ".." && '\0' !in part
  }

  predicate ItemOk(x: Item) {
    ArchivePath(x.name) && !x.kind.Special? && (x.kind.Symlink? ==> SafeTarget(x.name, x.kind.target))
  }

  ghost predicate Distinct(m: seq<Item>) {
    forall i, j | 0 <= i < j < |m| :: m[i].name != m[j].name
  }

  /** Only directories have members below them, in whatever order they come. */
  ghost predicate Nested(m: seq<Item>) {
    forall i, j | 0 <= i < |m| && 0 <= j < |m| && m[i].name < m[j].name :: m[i].kind.Directory?
  }

  ghost predicate Fits(m: seq<Item>, l: Limits) {
    && (forall i | 0 <= i < |m| :: ItemOk(m[i]))
    && Distinct(m) && Nested(m)
    && |m| <= l.members && Total(m) <= l.bytes
  }

  // The checks, on the kinds of the members so far

  predicate ParentsAreDirectories(kinds: map<Path, Member>, name: Path) {
    forall q | q in kinds && q < name :: kinds[q] == DirectoryMember
  }

  predicate Owns(kinds: map<Path, Member>, name: Path) {
    exists q | q in kinds :: name <= q
  }

  predicate Admitted(kinds: map<Path, Member>, x: Item) {
    && ItemOk(x) && x.name !in kinds && ParentsAreDirectories(kinds, x.name)
    && (x.kind.Directory? || !Owns(kinds, x.name))
  }

  lemma {:induction false} KindsAt(m: seq<Item>)
    ensures forall q :: q in KindsOf(m) <==> exists i :: 0 <= i < |m| && m[i].name == q
    ensures Distinct(m) ==> forall i | 0 <= i < |m| :: KindsOf(m)[m[i].name] == MemberOf(m[i].kind)
  {
    if m != [] {
      var init := m[..|m| - 1];
      KindsAt(init);
      assert forall i | 0 <= i < |m| - 1 :: m[i] == init[i];
      forall q
        ensures q in KindsOf(m) <==> exists i :: 0 <= i < |m| && m[i].name == q
      {
        if q in KindsOf(init) {
          var i :| 0 <= i < |init| && init[i].name == q;
          assert m[i].name == q;
        }
      }
    }
  }

  lemma {:induction false} LinksAt(m: seq<Item>)
    ensures forall q :: q in LinksOf(m) ==> exists i :: 0 <= i < |m| && m[i].name == q && m[i].kind.Symlink?
    ensures forall i | 0 <= i < |m| && m[i].kind.Symlink? :: m[i].name in LinksOf(m)
    ensures Distinct(m) ==> forall i | 0 <= i < |m| && m[i].kind.Symlink? :: LinksOf(m)[m[i].name] == m[i].kind.target
  {
    if m != [] {
      var init := m[..|m| - 1];
      LinksAt(init);
      assert forall i | 0 <= i < |m| - 1 :: m[i] == init[i];
      forall q | q in LinksOf(m)
        ensures exists i :: 0 <= i < |m| && m[i].name == q && m[i].kind.Symlink?
      {
        if q in LinksOf(init) {
          var i :| 0 <= i < |init| && init[i].name == q && init[i].kind.Symlink?;
          assert m[i].name == q;
        } else {
          assert m[|m| - 1].name == q;
        }
      }
    }
  }

  lemma {:induction false} DistinctNext(m: seq<Item>, x: Item)
    requires Distinct(m)
    ensures Distinct(m + [x]) <==> x.name !in KindsOf(m)
  {
    KindsAt(m);
    var more := m + [x];
    if x.name in KindsOf(m) {
      var i :| 0 <= i < |m| && m[i].name == x.name;
      assert more[i].name == more[|m|].name;
    }
  }

  lemma {:induction false} NestedNext(m: seq<Item>, x: Item)
    requires Distinct(m) && Nested(m) && x.name !in KindsOf(m)
    ensures Nested(m + [x]) <==>
      ParentsAreDirectories(KindsOf(m), x.name) && (x.kind.Directory? || !Owns(KindsOf(m), x.name))
  {
    KindsAt(m);
    var more, kinds := m + [x], KindsOf(m);
    if Nested(more) {
      forall q | q in kinds && q < x.name
        ensures kinds[q] == DirectoryMember
      {
        var i :| 0 <= i < |m| && m[i].name == q;
        assert more[i].name < more[|m|].name;
      }
      forall q | q in kinds && x.name <= q
        ensures x.kind.Directory?
      {
        var i :| 0 <= i < |m| && m[i].name == q;
        assert more[|m|].name < more[i].name;
      }
    } else {
      var i, j :| 0 <= i < |more| && 0 <= j < |more| && more[i].name < more[j].name && !more[i].kind.Directory?;
      if i == |m| {
        assert more[j].name in kinds;
      } else if j == |m| {
        assert more[i].name in kinds && kinds[more[i].name] == MemberOf(m[i].kind);
      }
    }
  }

  lemma ItemsOkNext(m: seq<Item>, x: Item)
    requires forall i | 0 <= i < |m| :: ItemOk(m[i])
    ensures (forall i | 0 <= i < |m + [x]| :: ItemOk((m + [x])[i])) <==> ItemOk(x)
  {
    var more := m + [x];
    assert more[|m|] == x && forall i | 0 <= i < |m| :: more[i] == m[i];
  }

  lemma {:induction false} TotalNext(m: seq<Item>, x: Item)
    ensures Total(m + [x]) == Total(m) + Size(x)
  {
    assert (m + [x])[..|m|] == m;
  }

  lemma {:induction false} KindsNext(m: seq<Item>, x: Item)
    ensures KindsOf(m + [x]) == KindsOf(m)[x.name := MemberOf(x.kind)]
  {
    assert (m + [x])[..|m|] == m;
  }

  /** Checking each new member against the ones before it is checking the whole list. */
  lemma {:induction false} FitsNext(m: seq<Item>, x: Item, l: Limits)
    requires Fits(m, l)
    ensures Fits(m + [x], l) <==>
      Admitted(KindsOf(m), x) && |m| < l.members && Total(m) + Size(x) <= l.bytes
  {
    ItemsOkNext(m, x);
    TotalNext(m, x);
    DistinctNext(m, x);
    if x.name !in KindsOf(m) {
      NestedNext(m, x);
    }
  }

  lemma {:induction false} FitsPrefix(m: seq<Item>, k: nat, l: Limits)
    requires Fits(m, l) && k <= |m|
    ensures Fits(m[..k], l)
    decreases |m|
  {
    if k < |m| {
      var init := m[..|m| - 1];
      assert Fits(init, l);
      assert init[..k] == m[..k];
      FitsPrefix(init, k, l);
    } else {
      assert m[..k] == m;
    }
  }

  /** The links are members, and hang from directories alone. */
  ghost predicate Hung(p: Payload) {
    forall l | l in p.links ::
      l != [] && Names(l) && Plain(p, Parent(l)) && l in p.kinds && ParentsAreDirectories(p.kinds, l)
  }

  lemma {:induction false} FittingName(m: seq<Item>, l: Limits, i: nat)
    requires Fits(m, l) && i < |m|
    ensures m[i].name != [] && Names(m[i].name) && ParentsAreDirectories(KindsOf(m), m[i].name)
  {
    KindsAt(m);
    assert ItemOk(m[i]);
    forall q | q in KindsOf(m) && q < m[i].name
      ensures KindsOf(m)[q] == DirectoryMember
    {
      var j :| 0 <= j < |m| && m[j].name == q;
      assert KindsOf(m)[m[j].name] == MemberOf(m[j].kind);
    }
  }

  /** So do the links of a list that fits. */
  lemma {:induction false} FittingLinks(m: seq<Item>, l: Limits)
    requires Fits(m, l)
    ensures Coherent(PayloadOf(m)) && Hung(PayloadOf(m))
  {
    KindsAt(m);
    LinksAt(m);
    forall q | q in LinksOf(m)
      ensures q != [] && Names(q) && Plain(PayloadOf(m), Parent(q)) && ParentsAreDirectories(KindsOf(m), q)
    {
      var i :| 0 <= i < |m| && m[i].name == q && m[i].kind.Symlink?;
      FittingName(m, l, i);
      forall k | 0 < k <= |Parent(q)|
        ensures Parent(q)[..k] !in LinksOf(m)
      {
        assert Parent(q)[..k] < q;
      }
    }
  }

  /** A member's mode in the archive and on disk: the owner's bits, readable and writable. */
  function NormalizedMode(mode: nat, directory: bool): nat {
    if directory || (mode / 0x40) % 2 == 1 then 0x1c0 else 0x180
  }

  /** Bit `k` of a mode; 8, 7 and 6 let the owner read, write and execute, and those below are for others. */
  predicate Bit(mode: nat, k: nat)
    requires k < 12
  {
    mode / [1, 2, 4, 8, 0x10, 0x20, 0x40, 0x80, 0x100, 0x200, 0x400, 0x800][k] % 2 == 1
  }

  /** The owner may read and write it, and execute it as before or because it is a directory; nobody else may. */
  predicate IsNormalized(mode: nat, directory: bool, now: nat) {
    && Bit(now, 8) && Bit(now, 7) && (Bit(now, 6) <==> directory || Bit(mode, 6))
    && now < 0x200 && forall k | 0 <= k < 6 :: !Bit(now, k)
  }

  lemma NormalizedBits(mode: nat, directory: bool)
    ensures IsNormalized(mode, directory, NormalizedMode(mode, directory))
  {
    forall k | 0 <= k < 6
      ensures !Bit(0x1c0, k) && !Bit(0x180, k)
    {
      assert k == 0 || k == 1 || k == 2 || k == 3 || k == 4 || k == 5;
    }
  }

  // The bytes

  /** The contents of the files, one after the other. */
  function Contents(m: seq<Item>): Bytes {
    if m == [] then [] else Contents(m[..|m| - 1]) + if m[|m| - 1].kind.Regular? then m[|m| - 1].kind.content else []
  }

  lemma {:induction false} TotalIsContents(m: seq<Item>)
    ensures Total(m) == |Contents(m)|
  {
    if m != [] {
      TotalIsContents(m[..|m| - 1]);
    }
  }
}
