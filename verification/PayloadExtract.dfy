/** extract_archive: the members of an archive, checked and laid out one by one. */
module PayloadExtract {
  import opened Wrappers
  import opened FileTree
  import opened PayloadLinks
  import opened PayloadGraph
  import opened PayloadMembers
  import opened PayloadDisk
  import opened PayloadRuns
  import opened PayloadRealpath
  import opened PayloadResolve

  /** What extraction has so far: the disk, the kinds, the links that wait, the count of members and of bytes. */
  datatype Progress = Progress(disk: Disk, kinds: map<Path, Member>, links: seq<Item>, count: nat, total: nat)

  ghost predicate Unpacks(p: Progress, m: seq<Item>, l: Limits, made: Made) {
    && Fits(m, l) && p.count == |m| && p.total == Total(m) && p.kinds == KindsOf(m)
    && Unpacking(p.disk, m, made) && AreLinksOf(m, p.links)
  }

  lemma {:induction false} CountsNext(p: Progress, m: seq<Item>, made: Made, x: Item)
    requires p.count == |m| && p.total == Total(m) && p.kinds == KindsOf(m)
    ensures var q := WithMember(p, x, made);
      q.count == |m + [x]| && q.total == Total(m + [x]) && q.kinds == KindsOf(m + [x])
  {
    TotalNext(m, x);
    KindsNext(m, x);
  }

  lemma {:induction false} PlacesNext(p: Progress, m: seq<Item>, made: Made, x: Item)
    requires Unpacking(p.disk, m, made) && AreLinksOf(m, p.links) && Distinct(m) && Distinct(m + [x])
    requires Admitted(KindsOf(m), x)
    ensures var q := WithMember(p, x, made);
      Unpacking(q.disk, m + [x], made) && AreLinksOf(m + [x], q.links)
  {
    PlacedNext(p.disk, m, made, x);
    LinkNext(m, p.links, x);
  }

  lemma UnpacksNext(p: Progress, m: seq<Item>, l: Limits, made: Made, x: Item)
    requires Unpacks(p, m, l, made)
    requires Admitted(p.kinds, x) && |m| < l.members && p.total + Size(x) <= l.bytes
    ensures Unpacks(WithMember(p, x, made), m + [x], l, made)
  {
    FitsNext(m, x, l);
    CountsNext(p, m, made, x);
    PlacesNext(p, m, made, x);
  }

  lemma Refused(p: Progress, m: seq<Item>, l: Limits, made: Made, x: Item)
    requires Unpacks(p, m, l, made)
    requires !(Admitted(p.kinds, x) && |m| < l.members && p.total + Size(x) <= l.bytes)
    ensures !Fits(m + [x], l)
  {
    FitsNext(m, x, l);
  }

  /** The place of a member that passed the checks on its name. */
  lemma Place(p: Progress, m: seq<Item>, l: Limits, made: Made, x: Item)
    requires Unpacks(p, m, l, made) && ArchivePath(x.name)
    requires x.name !in p.kinds && ParentsAreDirectories(p.kinds, x.name)
    ensures forall q | q in p.disk && q < x.name :: p.disk[q].kind.Directory?
    ensures x.name in WithParents(p.disk, x.name, made) <==> Owns(p.kinds, x.name)
    ensures x.name in p.disk ==> p.disk[x.name].kind.Directory?
  {
    PlaceOf(p.disk, m, made, x);
  }

  /** The checks that come before anything is made. */
  predicate NameAccepted(p: Progress, x: Item, l: Limits) {
    && ArchivePath(x.name) && x.name !in p.kinds && ParentsAreDirectories(p.kinds, x.name)
    && !(x.kind.Symlink? && Owns(p.kinds, x.name)) && p.count + 1 <= l.members
  }

  /** A member's kind is handled, its content fits, its place is free, and a link's text is safe. */
  predicate KindAccepted(p: Progress, x: Item, l: Limits, made: Made) {
    match x.kind
    case Directory => true
    case Regular(content) => p.total + |content| <= l.bytes && x.name !in WithParents(p.disk, x.name, made)
    case Symlink(target) => x.name != [] && SafeTarget(x.name, target)
    case Special => false
  }

  function WithMember(p: Progress, x: Item, made: Made): Progress {
    Progress(Placed(p.disk, x, made), p.kinds[x.name := MemberOf(x.kind)],
             if x.kind.Symlink? then p.links + [x] else p.links, p.count + 1, p.total + Size(x))
  }

  /** One member: its checks, and its place on disk; a link is noted and waits. */
  method PlaceMember(p: Progress, x: Item, l: Limits, made: Made) returns (r: Result<Progress, string>)
    ensures r.Ok? <==> NameAccepted(p, x, l) && KindAccepted(p, x, l, made)
    ensures r.Ok? ==> r.value == WithMember(p, x, made)
  {
    if !ArchivePath(x.name) || x.name in p.kinds || !ParentsAreDirectories(p.kinds, x.name) {
      return Err("unsafe or duplicate payload member");
    }
    if x.kind.Symlink? && Owns(p.kinds, x.name) {
      return Err("symbolic link owns an existing payload member");
    }
    if p.count + 1 > l.members {
      return Err("payload exceeds its members");
    }
    var disk := WithParents(p.disk, x.name, made);
    var kinds := p.kinds[x.name := MemberOf(x.kind)];
    match x.kind {
      case Directory =>
        if x.name !in disk {
          disk := disk[x.name := Extracted(Directory, made.direct)];
        }
        return Ok(Progress(disk, kinds, p.links, p.count + 1, p.total));
      case Regular(content) =>
        if p.total + |content| > l.bytes {
          return Err("payload exceeds its bytes");
        }
        if x.name in disk {
          return Err("file exists");
        }
        disk := disk[x.name := Extracted(x.kind, NormalizedMode(x.mode, false))];
        return Ok(Progress(disk, kinds, p.links, p.count + 1, p.total + |content|));
      case Symlink(target) =>
        if !SafeTarget(x.name, target) {
          return Err("unsafe symbolic-link target");
        }
        return Ok(Progress(disk, kinds, p.links + [x], p.count + 1, p.total));
      case Special =>
        return Err("unsupported payload member type");
    }
  }

  /** On a disk that holds the members so far, these checks are the manifest's, and no mkdir on the way can fail. */
  lemma SameChecks(p: Progress, m: seq<Item>, l: Limits, made: Made, x: Item)
    requires Unpacks(p, m, l, made)
    ensures NameAccepted(p, x, l) && KindAccepted(p, x, l, made) <==>
      Admitted(p.kinds, x) && |m| < l.members && p.total + Size(x) <= l.bytes
    ensures NameAccepted(p, x, l) ==> forall q | q in p.disk && q < x.name :: p.disk[q].kind.Directory?
    ensures NameAccepted(p, x, l) && x.name in p.disk ==> p.disk[x.name].kind.Directory?
  {
    if ArchivePath(x.name) && x.name !in p.kinds && ParentsAreDirectories(p.kinds, x.name) {
      Place(p, m, l, made, x);
    }
  }

  method UnpackMember(p: Progress, ghost m: seq<Item>, x: Item, l: Limits, made: Made)
      returns (r: Result<Progress, string>)
    requires Unpacks(p, m, l, made)
    ensures r.Ok? ==> Unpacks(r.value, m + [x], l, made)
    ensures r.Err? ==> !Fits(m + [x], l)
  {
    SameChecks(p, m, l, made, x);
    r := PlaceMember(p, x, l, made);
    if r.Ok? {
      UnpacksNext(p, m, l, made, x);
    } else {
      Refused(p, m, l, made, x);
    }
  }

  lemma FirstNext(members: seq<Item>, k: nat)
    requires k < |members|
    ensures members[..k + 1] == members[..k] + [members[k]]
  {
  }

  lemma AllFirst(members: seq<Item>)
    ensures members[..|members|] == members
  {
  }

  lemma UnfitSoFar(members: seq<Item>, k: nat, l: Limits)
    requires k < |members| && !Fits(members[..k] + [members[k]], l)
    ensures !Fits(members, l)
  {
    FirstNext(members, k);
    if Fits(members, l) {
      FitsPrefix(members, k + 1, l);
    }
  }

  /** The loop over the members. */
  method Unpack(members: seq<Item>, l: Limits, made: Made) returns (r: Result<Progress, string>)
    ensures r.Ok? <==> Fits(members, l)
    ensures r.Ok? ==> Unpacks(r.value, members, l, made)
  {
    var p := Progress(map[[] := Extracted(Directory, made.direct)], map[], [], 0, 0);
    for k := 0 to |members|
      invariant Unpacks(p, members[..k], l, made)
    {
      FirstNext(members, k);
      var next := UnpackMember(p, members[..k], members[k], l, made);
      if next.Err? {
        UnfitSoFar(members, k, l);
        return Err(next.error);
      }
      p := next.value;
    }
    AllFirst(members);
    return Ok(p);
  }

  method MakeLinks(base: Disk, links: seq<Item>) returns (disk: Disk)
    requires Distinct(links) && forall i | 0 <= i < |links| :: links[i].name !in base
    ensures Linked(disk, base, links, |links|)
  {
    disk := base;
    for k := 0 to |links|
      invariant Linked(disk, base, links, k)
    {
      LinkedNext(disk, base, links, k);
      disk := disk[links[k].name := OnDisk(links[k])];
    }
  }

  method CloseDirectories(base: Disk, kinds: map<Path, Member>) returns (disk: Disk)
    requires forall q | q in kinds :: q in base
    ensures Closed(disk, base, kinds)
  {
    disk := base;
    var left := kinds.Keys;
    while left != {}
      invariant left <= kinds.Keys && disk.Keys == base.Keys
      invariant forall q | q in base ::
        disk[q] ==
          if q in kinds && q !in left && kinds[q] == DirectoryMember then Extracted(base[q].kind, 0x1c0) else base[q]
      decreases left
    {
      var name :| name in left;
      left := left - {name};
      if kinds[name] == DirectoryMember {
        disk := disk[name := Extracted(disk[name].kind, 0x1c0)];
      }
    }
  }

  /** Every link of the members ends inside. */
  ghost predicate AllInside(members: seq<Item>) {
    forall q | q in LinksOf(members) :: Inside(PayloadOf(members), q)
  }

  ghost predicate AllPass(members: seq<Item>, limit: nat) {
    forall q | q in LinksOf(members) :: Passes(PayloadOf(members), q, limit)
  }

  /** No link has ".." in its text. */
  ghost predicate AllDotless(members: seq<Item>) {
    NoDots(PayloadOf(members))
  }

  /**
   * extract_archive on the members of a well-formed archive; `made` has the modes
   * new directories get, and `python` says how the interpreter resolves.  Members
   * that fit, with links that all end inside, are extracted, and the tree mirrors
   * them; members that do not fit are refused.  Up to Python 3.12 a link that leads
   * back into a link is let through exactly if its names pass as text, and without
   * ".." in a link's text none is; later ones then let every link through.
   */
  method Extract(members: seq<Item>, l: Limits, made: Made, python: Python) returns (r: Result<Disk, string>)
    ensures Fits(members, l) && AllInside(members) ==> r.Ok?
    ensures r.Ok? ==> Fits(members, l)
    ensures python.Until312? ==> (r.Ok? <==> Fits(members, l) && AllPass(members, python.limit))
    ensures python.Until312? && AllDotless(members) ==> (r.Ok? <==> Fits(members, l) && AllInside(members))
    ensures python.Since313? && AllDotless(members) ==> (r.Ok? <==> Fits(members, l))
    ensures r.Ok? ==> Mirrors(r.value, members, made)
  {
    var unpacked := Unpack(members, l, made);
    if unpacked.Err? {
      return Err(unpacked.error);
    }
    var base, links := unpacked.value.disk, unpacked.value.links;
    LinkPlacesFree(base, members, made, links);
    var linked := MakeLinks(base, links);
    FittingLinks(members, l);
    var passed := CheckLinks(members, links, python);
    if python.Until312? && AllDotless(members) {
      DotlessPass(members, l, python.limit);
    }
    if !passed {
      return Err("symbolic-link chain escapes the payload");
    }
    KindsLinked(linked, base, members, made, links);
    var disk := CloseDirectories(linked, unpacked.value.kinds);
    ClosedMirrors(disk, linked, base, members, made, links);
    return Ok(disk);
  }

  /** The final look at every link. */
  method CheckLinks(members: seq<Item>, links: seq<Item>, python: Python) returns (ok: bool)
    requires AreLinksOf(members, links) && Hung(PayloadOf(members))
    ensures AllInside(members) ==> ok
    ensures python.Until312? ==> (ok <==> AllPass(members, python.limit))
    ensures python.Since313? && AllDotless(members) ==> ok
  {
    LinksListed(members, links);
    var p := PayloadOf(members);
    for k := 0 to |links|
      invariant python.Until312? ==> forall i | 0 <= i < k :: Passes(p, links[i].name, python.limit)
    {
      assert links[k].name in p.links;
      var inside := LinkInside(p, links[k].name, python);
      if !inside {
        return false;
      }
    }
    return true;
  }

  /** Without ".." in the text of any link, the links that pass are those that end inside. */
  lemma DotlessPass(members: seq<Item>, l: Limits, limit: nat)
    requires Fits(members, l) && AllDotless(members)
    ensures AllPass(members, limit) <==> AllInside(members)
  {
    FittingLinks(members, l);
    forall q | q in LinksOf(members)
      ensures !PassesAsText(PayloadOf(members), q, limit)
    {
      assert PayloadOf(members).links == LinksOf(members);
      NoDotsNoText(PayloadOf(members), q, limit);
    }
  }

  lemma {:induction false} KindsLinked(linked: Disk, base: Disk, m: seq<Item>, made: Made, links: seq<Item>)
    requires Unpacking(base, m, made) && AreLinksOf(m, links) && Linked(linked, base, links, |links|)
    ensures forall q | q in KindsOf(m) :: q in linked
  {
    KindsAt(m);
    forall q | q in KindsOf(m)
      ensures q in linked
    {
      var i :| 0 <= i < |m| && m[i].name == q;
      LinkedMember(linked, base, m, made, links, i);
    }
  }

  lemma {:induction false} LinksListed(m: seq<Item>, links: seq<Item>)
    requires AreLinksOf(m, links)
    ensures forall q :: q in LinksOf(m) <==> exists i :: 0 <= i < |links| && links[i].name == q
  {
    LinksAt(m);
    forall q
      ensures q in LinksOf(m) <==> exists i :: 0 <= i < |links| && links[i].name == q
    {
      if q in LinksOf(m) {
        var i :| 0 <= i < |m| && m[i].name == q && m[i].kind.Symlink?;
        var j :| 0 <= j < |links| && links[j] == m[i];
        assert links[j].name == q;
      }
      if exists i :: 0 <= i < |links| && links[i].name == q {
        var i :| 0 <= i < |links| && links[i].name == q;
        var j :| 0 <= j < |m| && m[j] == links[i];
        assert m[j].name in LinksOf(m);
      }
    }
  }
}
