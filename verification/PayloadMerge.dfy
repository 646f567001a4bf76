/** merge_directory: a tree of regular files laid over a directory, checked first and moved afterwards. */
module PayloadMerge {
  import opened Wrappers
  import opened FileTree
  import opened PayloadMembers
  import opened PayloadDisk

  predicate DirectoryAt(d: Disk, q: Path) {
    q in d && d[q].kind.Directory?
  }

  ghost predicate Hangs(d: Disk) {
    DirectoryAt(d, []) && forall q: Path, name: string | q + [name] in d :: DirectoryAt(d, q)
  }

  /** The paths at and below `p`, relative to it. */
  function Rel(d: Disk, p: Path): (s: set<Path>)
    ensures forall r :: r in s <==> p + r in d
  {
    var s := set q | q in d && p <= q :: q[|p|..];
    assert forall r :: p <= p + r && (p + r)[|p|..] == r;
    assert forall q | q in d && p <= q :: q == p + q[|p|..];
    s
  }

  predicate Apart(p: Path, q: Path) {
    !(p <= q) && !(q <= p)
  }

  predicate Replaceable(d: Disk, from: Path, to: Path) {
    && from in d && !d[from].kind.Directory?
    && to != [] && DirectoryAt(d, Parent(to)) && !DirectoryAt(d, to)
  }

  /** A file system, and the calls merge_directory makes on it; `ok` tells whether a call succeeds. */
  class Volume {
    var disk: Disk

    constructor (d: Disk)
      ensures disk == d
    {
      disk := d;
    }

    method Mkdir(q: Path) returns (ok: bool)
      modifies this
      ensures ok <==> DirectoryAt(old(disk), q) || (q != [] && q !in old(disk) && DirectoryAt(old(disk), Parent(q)))
      ensures disk == if ok && q !in old(disk) then old(disk)[q := Extracted(Directory, 0x1c0)] else old(disk)
    {
      if q in disk {
        return disk[q].kind.Directory?;
      }
      if q == [] || !DirectoryAt(disk, Parent(q)) {
        return false;
      }
      disk := disk[q := Extracted(Directory, 0x1c0)];
      ok := true;
    }

    /** os.replace of one file, and the chmod that follows it. */
    method Replace(from: Path, to: Path) returns (ok: bool)
      modifies this
      ensures ok <==> Replaceable(old(disk), from, to)
      ensures disk == if ok then
                        var file := old(disk)[from];
                        (old(disk) - {from})[to := Extracted(file.kind, NormalizedMode(file.mode, false))]
                      else old(disk)
    {
      if !Replaceable(disk, from, to) {
        return false;
      }
      var file := disk[from];
      disk := (disk - {from})[to := file];
      disk := disk[to := Extracted(file.kind, NormalizedMode(file.mode, false))];
      ok := true;
    }

    method Rmdir(q: Path) returns (ok: bool)
      modifies this
      ensures ok <==> DirectoryAt(old(disk), q) && forall p | p in old(disk) :: !(q < p)
      ensures disk == if ok then old(disk) - {q} else old(disk)
    {
      if !DirectoryAt(disk, q) || exists p :: p in disk && q < p {
        return false;
      }
      disk := disk - {q};
      ok := true;
    }
  }

  // The checks

  /** What the walk over the source checks of one node: its kind, and what stands in its way. */
  predicate NodeMerges(t: Disk, src: Path, dst: Path, r: Path)
    requires src + r in t
  {
    match t[src + r].kind
    case Directory => forall k | 0 <= k <= |r| :: dst + r[..k] in t ==> DirectoryAt(t, dst + r[..k])
    case Regular(_) => dst + r in t ==> t[dst + r].kind.Regular?
    case Symlink(_) => false
    case Special => false
  }

  /** Two directories, the first holding only directories and files, none of which meets one of the other kind. */
  ghost predicate Mergeable(t: Disk, src: Path, dst: Path) {
    && DirectoryAt(t, src) && DirectoryAt(t, dst)
    && forall r | r in Rel(t, src) :: NodeMerges(t, src, dst, r)
  }

  /** The walk: every node is checked and listed, as a directory or as a file to move. */
  method Survey(t: Disk, src: Path, dst: Path) returns (r: Result<(set<Path>, set<Path>), string>)
    ensures r.Ok? <==> Mergeable(t, src, dst)
    ensures r.Ok? ==> r.value.0 == Dirs(t, src) && r.value.1 == Files(t, src)
  {
    if !DirectoryAt(t, src) {
      return Err("merge source is not a real directory");
    }
    if !DirectoryAt(t, dst) {
      return Err("merge destination is not a real directory");
    }
    var directories: set<Path>, transfers: set<Path> := {}, {};
    var left := Rel(t, src);
    while left != {}
      invariant left <= Rel(t, src)
      invariant forall q | q in Rel(t, src) && q !in left :: NodeMerges(t, src, dst, q)
      invariant directories == Dirs(t, src) - left && transfers == Files(t, src) - left
      decreases left
    {
      var q :| q in left;
      left := left - {q};
      if !NodeMerges(t, src, dst, q) {
        return Err("output payload has an unsafe member or collision");
      }
      if t[src + q].kind.Directory? {
        directories := directories + {q};
      } else {
        transfers := transfers + {q};
      }
    }
    return Ok((directories, transfers));
  }

  function Dirs(t: Disk, src: Path): set<Path> {
    set r | r in Rel(t, src) && t[src + r].kind.Directory?
  }

  function Files(t: Disk, src: Path): set<Path> {
    set r | r in Rel(t, src) && t[src + r].kind.Regular?
  }

  // The result

  /** The source laid over the destination: files take their new mode, directories that were there stay as they were. */
  function MergedAt(t: Disk, src: Path, dst: Path, q: Path): Option<Extracted> {
    if dst <= q && src + q[|dst|..] in t then
      var node := t[src + q[|dst|..]];
      if !node.kind.Directory? then Some(Extracted(node.kind, NormalizedMode(node.mode, false)))
      else if q in t then Some(t[q])
      else Some(Extracted(Directory, 0x1c0))
    else if q in t && !(src <= q) then Some(t[q])
    else None
  }

  function At(d: Disk, q: Path): Option<Extracted> {
    if q in d then Some(d[q]) else None
  }

  ghost predicate Merged(d: Disk, t: Disk, src: Path, dst: Path) {
    forall q :: At(d, q) == MergedAt(t, src, dst, q)
  }

  // While it happens: the directories `made`, the files `moved` and the source directories `gone`

  function Midway(t: Disk, src: Path, dst: Path, made: set<Path>, moved: set<Path>, gone: set<Path>, q: Path)
      : Option<Extracted>
  {
    if dst <= q && q[|dst|..] in moved && src + q[|dst|..] in t then
      var file := t[src + q[|dst|..]];
      Some(Extracted(file.kind, NormalizedMode(file.mode, false)))
    else if src <= q && (q[|src|..] in moved || q[|src|..] in gone) then None
    else if dst <= q && q[|dst|..] in made && q !in t then Some(Extracted(Directory, 0x1c0))
    else At(t, q)
  }

  ghost predicate Between(d: Disk, t: Disk, src: Path, dst: Path, made: set<Path>, moved: set<Path>, gone: set<Path>) {
    forall q :: At(d, q) == Midway(t, src, dst, made, moved, gone, q)
  }

  /** Nothing is below both. */
  lemma ApartPaths(src: Path, dst: Path, q: Path)
    requires Apart(src, dst)
    ensures !(src <= q && dst <= q)
  {
    if src <= q && dst <= q {
      PrefixesNest(src, dst, q);
    }
  }

  lemma RelOf(p: Path, q: Path, r: Path)
    requires p <= q
    ensures q[|p|..] == r <==> q == p + r
  {
    assert (p + r)[|p|..] == r;
    assert q == p + q[|p|..];
  }

  lemma Sides(t: Disk, src: Path, dst: Path, r: Path)
    requires Apart(src, dst)
    ensures dst <= dst + r && (dst + r)[|dst|..] == r && !(src <= dst + r)
    ensures src <= src + r && (src + r)[|src|..] == r && !(dst <= src + r)
  {
    ApartPaths(src, dst, dst + r);
    ApartPaths(src, dst, src + r);
  }

  lemma DirectoryFits(t: Disk, src: Path, dst: Path, r: Path)
    requires Mergeable(t, src, dst) && r in Dirs(t, src) && dst + r in t
    ensures DirectoryAt(t, dst + r)
  {
    assert NodeMerges(t, src, dst, r) && r[..|r|] == r;
  }

  lemma ParentListed(t: Disk, src: Path, r: Path)
    requires Hangs(t) && r in Rel(t, src) && r != []
    ensures Parent(r) in Dirs(t, src)
  {
    var d, name := Parent(r), r[|r| - 1];
    assert r == d + [name];
    HangsAt(t, src + d, name, src + r);
  }

  lemma HangsAt(t: Disk, q: Path, name: string, below: Path)
    requires Hangs(t) && below in t && below == q + [name]
    ensures DirectoryAt(t, q)
  {
  }

  lemma MadeStands(t: Disk, src: Path, dst: Path, made: set<Path>, moved: set<Path>, r: Path)
    requires Mergeable(t, src, dst) && Apart(src, dst) && r in made && made <= Dirs(t, src) && moved <= Files(t, src)
    ensures var at := Midway(t, src, dst, made, moved, {}, dst + r); at.Some? && at.value.kind.Directory?
  {
    Sides(t, src, dst, r);
    if dst + r in t {
      DirectoryFits(t, src, dst, r);
    }
  }

  lemma MkdirWorks(d: Disk, t: Disk, src: Path, dst: Path, made: set<Path>, r: Path)
    requires Mergeable(t, src, dst) && Hangs(t) && Apart(src, dst) && Between(d, t, src, dst, made, {}, {})
    requires r in Dirs(t, src) && r !in made && made <= Dirs(t, src) && (r != [] ==> Parent(r) in made)
    ensures DirectoryAt(d, dst + r) || (dst + r != [] && dst + r !in d && DirectoryAt(d, Parent(dst + r)))
    ensures dst + r in d <==> dst + r in t
  {
    Sides(t, src, dst, r);
    assert At(d, dst + r) == Midway(t, src, dst, made, {}, {}, dst + r);
    if dst + r in t {
      DirectoryFits(t, src, dst, r);
    } else {
      assert r != [] by { assert dst + [] == dst; }
      assert Parent(dst + r) == dst + Parent(r);
      MadeStands(t, src, dst, made, {}, Parent(r));
      assert At(d, dst + Parent(r)) == Midway(t, src, dst, made, {}, {}, dst + Parent(r));
    }
  }

  lemma MkdirNext(d: Disk, t: Disk, src: Path, dst: Path, made: set<Path>, r: Path)
    requires Apart(src, dst) && Between(d, t, src, dst, made, {}, {}) && (dst + r in d <==> dst + r in t) && r !in made
    ensures Between(if dst + r in d then d else d[dst + r := Extracted(Directory, 0x1c0)], t, src, dst,
                    made + {r}, {}, {})
  {
    var after := if dst + r in d then d else d[dst + r := Extracted(Directory, 0x1c0)];
    Sides(t, src, dst, r);
    forall q
      ensures At(after, q) == Midway(t, src, dst, made + {r}, {}, {}, q)
    {
      assert At(d, q) == Midway(t, src, dst, made, {}, {}, q);
      if dst <= q {
        RelOf(dst, q, r);
      }
    }
  }

  lemma ReplaceWorks(d: Disk, t: Disk, src: Path, dst: Path, moved: set<Path>, r: Path)
    requires Mergeable(t, src, dst) && Hangs(t) && Apart(src, dst) && Between(d, t, src, dst, Dirs(t, src), moved, {})
    requires r in Files(t, src) && r !in moved && moved <= Files(t, src)
    ensures Replaceable(d, src + r, dst + r) && src + r in t && d[src + r] == t[src + r]
  {
    Sides(t, src, dst, r);
    assert r != [] by { assert src + [] == src; }
    assert At(d, src + r) == Midway(t, src, dst, Dirs(t, src), moved, {}, src + r);
    assert At(d, dst + r) == Midway(t, src, dst, Dirs(t, src), moved, {}, dst + r);
    assert NodeMerges(t, src, dst, r);
    ParentListed(t, src, r);
    MadeStands(t, src, dst, Dirs(t, src), moved, Parent(r));
    assert Parent(dst + r) == dst + Parent(r);
    assert At(d, dst + Parent(r)) == Midway(t, src, dst, Dirs(t, src), moved, {}, dst + Parent(r));
  }

  lemma ReplaceNext(d: Disk, t: Disk, src: Path, dst: Path, made: set<Path>, moved: set<Path>, r: Path)
    requires Apart(src, dst) && Between(d, t, src, dst, made, moved, {}) && r !in moved
    requires src + r in t && src + r in d && d[src + r] == t[src + r]
    ensures Between((d - {src + r})[dst + r := Extracted(t[src + r].kind, NormalizedMode(t[src + r].mode, false))],
                    t, src, dst, made, moved + {r}, {})
  {
    var after := (d - {src + r})[dst + r := Extracted(t[src + r].kind, NormalizedMode(t[src + r].mode, false))];
    Sides(t, src, dst, r);
    forall q
      ensures At(after, q) == Midway(t, src, dst, made, moved + {r}, {}, q)
    {
      assert At(d, q) == Midway(t, src, dst, made, moved, {}, q);
      ApartPaths(src, dst, q);
      if dst <= q {
        RelOf(dst, q, r);
      } else if src <= q {
        RelOf(src, q, r);
      }
    }
  }

  lemma RmdirWorks(d: Disk, t: Disk, src: Path, dst: Path, gone: set<Path>, r: Path)
    requires Mergeable(t, src, dst) && Apart(src, dst)
    requires Between(d, t, src, dst, Dirs(t, src), Files(t, src), gone)
    requires r in Dirs(t, src) && r !in gone && forall x | x in Dirs(t, src) && |x| > |r| :: x in gone
    ensures DirectoryAt(d, src + r) && forall p | p in d :: !(src + r < p)
  {
    Sides(t, src, dst, r);
    assert At(d, src + r) == Midway(t, src, dst, Dirs(t, src), Files(t, src), gone, src + r);
    forall p | src + r < p
      ensures p !in d
    {
      assert src <= p;
      ApartPaths(src, dst, p);
      var x := p[|src|..];
      assert p == src + x && |x| > |r|;
      assert At(d, p) == Midway(t, src, dst, Dirs(t, src), Files(t, src), gone, p);
      assert x in Rel(t, src) ==> NodeMerges(t, src, dst, x);
    }
  }

  lemma RmdirNext(d: Disk, t: Disk, src: Path, dst: Path, made: set<Path>, moved: set<Path>, gone: set<Path>, r: Path)
    requires Apart(src, dst) && Between(d, t, src, dst, made, moved, gone)
    ensures Between(d - {src + r}, t, src, dst, made, moved, gone + {r})
  {
    Sides(t, src, dst, r);
    forall q
      ensures At(d - {src + r}, q) == Midway(t, src, dst, made, moved, gone + {r}, q)
    {
      assert At(d, q) == Midway(t, src, dst, made, moved, gone, q);
      ApartPaths(src, dst, q);
      if src <= q {
        RelOf(src, q, r);
      }
    }
  }

  lemma AllDone(d: Disk, t: Disk, src: Path, dst: Path)
    requires Mergeable(t, src, dst) && Apart(src, dst)
    requires Between(d, t, src, dst, Dirs(t, src), Files(t, src), Dirs(t, src))
    ensures Merged(d, t, src, dst)
  {
    forall q
      ensures At(d, q) == MergedAt(t, src, dst, q)
    {
      ApartPaths(src, dst, q);
      if dst <= q {
        var r := q[|dst|..];
        assert q == dst + r;
        assert r in Rel(t, src) ==> NodeMerges(t, src, dst, r);
      } else if src <= q {
        var r := q[|src|..];
        assert q == src + r;
        assert r in Rel(t, src) ==> NodeMerges(t, src, dst, r);
      }
    }
  }

  lemma {:induction false} Shortest(s: set<Path>) returns (r: Path)
    requires s != {}
    ensures r in s && forall x | x in s :: |r| <= |x|
    decreases s
  {
    r :| r in s;
    if s != {r} {
      var other := Shortest(s - {r});
      if |other| < |r| {
        r := other;
      }
    }
  }

  lemma {:induction false} Longest(s: set<Path>) returns (r: Path)
    requires s != {}
    ensures r in s && forall x | x in s :: |x| <= |r|
    decreases s
  {
    r :| r in s;
    if s != {r} {
      var other := Longest(s - {r});
      if |other| > |r| {
        r := other;
      }
    }
  }

  lemma TakenOut(all: set<Path>, left: set<Path>, r: Path)
    requires r in left && left <= all
    ensures left - {r} <= all && all - (left - {r}) == all - left + {r}
  {
  }

  /** The next directory to go: the longest left is empty, and without it one more is gone. */
  lemma RmdirStep(d: Disk, t: Disk, src: Path, dst: Path, left: set<Path>, r: Path)
    requires Mergeable(t, src, dst) && Apart(src, dst) && left <= Dirs(t, src)
    requires Between(d, t, src, dst, Dirs(t, src), Files(t, src), Dirs(t, src) - left)
    requires r in left && forall x | x in left :: |x| <= |r|
    ensures DirectoryAt(d, src + r) && forall p | p in d :: !(src + r < p)
    ensures left - {r} <= Dirs(t, src)
    ensures Between(d - {src + r}, t, src, dst, Dirs(t, src), Files(t, src), Dirs(t, src) - (left - {r}))
  {
    RmdirWorks(d, t, src, dst, Dirs(t, src) - left, r);
    RmdirNext(d, t, src, dst, Dirs(t, src), Files(t, src), Dirs(t, src) - left, r);
    TakenOut(Dirs(t, src), left, r);
  }

  lemma MoveStep(d: Disk, t: Disk, src: Path, dst: Path, left: set<Path>, r: Path)
    requires Mergeable(t, src, dst) && Hangs(t) && Apart(src, dst) && left <= Files(t, src) && r in left
    requires Between(d, t, src, dst, Dirs(t, src), Files(t, src) - left, {})
    ensures Replaceable(d, src + r, dst + r) && src + r != dst + r && left - {r} <= Files(t, src)
    ensures Between((d - {src + r})[dst + r := Extracted(d[src + r].kind, NormalizedMode(d[src + r].mode, false))],
                    t, src, dst, Dirs(t, src), Files(t, src) - (left - {r}), {})
  {
    ReplaceWorks(d, t, src, dst, Files(t, src) - left, r);
    ReplaceNext(d, t, src, dst, Dirs(t, src), Files(t, src) - left, r);
    Sides(t, src, dst, r);
    TakenOut(Files(t, src), left, r);
  }

  lemma MkdirStep(d: Disk, t: Disk, src: Path, dst: Path, left: set<Path>, r: Path)
    requires Mergeable(t, src, dst) && Hangs(t) && Apart(src, dst) && left <= Dirs(t, src)
    requires Between(d, t, src, dst, Dirs(t, src) - left, {}, {})
    requires r in left && forall x | x in left :: |r| <= |x|
    ensures DirectoryAt(d, dst + r) || (dst + r != [] && dst + r !in d && DirectoryAt(d, Parent(dst + r)))
    ensures left - {r} <= Dirs(t, src)
    ensures Between(if dst + r in d then d else d[dst + r := Extracted(Directory, 0x1c0)], t, src, dst,
                    Dirs(t, src) - (left - {r}), {}, {})
  {
    if r != [] {
      ParentListed(t, src, r);
    }
    MkdirWorks(d, t, src, dst, Dirs(t, src) - left, r);
    MkdirNext(d, t, src, dst, Dirs(t, src) - left, r);
    TakenOut(Dirs(t, src), left, r);
  }

  /** A tree and two directories in it, neither inside the other, that pass the checks. */
  ghost predicate Movable(t: Disk, src: Path, dst: Path) {
    Mergeable(t, src, dst) && Hangs(t) && Apart(src, dst)
  }

  /** No directory of `t` has gone. */
  ghost predicate DirectoriesStay(t: Disk, d: Disk) {
    forall q | DirectoryAt(t, q) :: DirectoryAt(d, q)
  }

  /** The directories, parents first. */
  method MakeDirectories(v: Volume, src: Path, dst: Path, directories: set<Path>) returns (ok: bool)
    requires directories == Dirs(v.disk, src)
    modifies v
    ensures ok ==> forall r | r in directories :: DirectoryAt(v.disk, dst + r)
    ensures Movable(old(v.disk), src, dst) ==> ok && Between(v.disk, old(v.disk), src, dst, directories, {}, {})
  {
    ghost var t := v.disk;
    var left := directories;
    while left != {}
      invariant left <= directories
      invariant forall r | r in directories && r !in left :: DirectoryAt(v.disk, dst + r)
      invariant Movable(t, src, dst) ==> Between(v.disk, t, src, dst, directories - left, {}, {})
      decreases left
    {
      ghost var first := Shortest(left);
      var r :| r in left && forall x | x in left :: |r| <= |x|;
      if Movable(t, src, dst) {
        MkdirStep(v.disk, t, src, dst, left, r);
      }
      var made := v.Mkdir(dst + r);
      if !made {
        return false;
      }
      left := left - {r};
    }
    assert directories - left == directories;
    ok := true;
  }

  /** The files, one by one. */
  method MoveFiles(v: Volume, src: Path, dst: Path, transfers: set<Path>, ghost t: Disk) returns (ok: bool)
    requires transfers == Files(t, src)
    requires Movable(t, src, dst) ==> Between(v.disk, t, src, dst, Dirs(t, src), {}, {})
    modifies v
    ensures DirectoriesStay(old(v.disk), v.disk)
    ensures Movable(t, src, dst) ==> ok && Between(v.disk, t, src, dst, Dirs(t, src), transfers, {})
  {
    var left := transfers;
    while left != {}
      invariant left <= transfers && DirectoriesStay(old(v.disk), v.disk)
      invariant Movable(t, src, dst) ==> Between(v.disk, t, src, dst, Dirs(t, src), transfers - left, {})
      decreases left
    {
      var r :| r in left;
      if Movable(t, src, dst) {
        MoveStep(v.disk, t, src, dst, left, r);
      }
      var moved := v.Replace(src + r, dst + r);
      if !moved {
        return false;
      }
      left := left - {r};
    }
    assert transfers - left == transfers;
    ok := true;
  }

  /** The source's directories, deepest first; each is empty when its turn comes. */
  method RemoveDirectories(v: Volume, src: Path, dst: Path, directories: set<Path>, ghost t: Disk) returns (ok: bool)
    requires directories == Dirs(t, src)
    requires Movable(t, src, dst) ==> Between(v.disk, t, src, dst, directories, Files(t, src), {})
    modifies v
    ensures ok && [] in directories ==> forall z | DirectoryAt(old(v.disk), src + z) :: z in directories
    ensures Movable(t, src, dst) ==> ok && Between(v.disk, t, src, dst, directories, Files(t, src), directories)
  {
    var left := directories;
    while left != {}
      invariant left <= directories
      invariant Strays(old(v.disk), v.disk, src, directories)
      invariant [] in directories && [] !in left ==> forall z | DirectoryAt(old(v.disk), src + z) :: z in directories
      invariant Movable(t, src, dst) ==> Between(v.disk, t, src, dst, directories, Files(t, src), directories - left)
      decreases left
    {
      ghost var last := Longest(left);
      var r :| r in left && forall x | x in left :: |x| <= |r|;
      if Movable(t, src, dst) {
        RmdirStep(v.disk, t, src, dst, left, r);
      }
      ghost var before := v.disk;
      var gone := v.Rmdir(src + r);
      if !gone {
        return false;
      }
      StraysStay(old(v.disk), before, src, directories, r);
      left := left - {r};
    }
    assert directories - left == directories;
    ok := true;
  }

  /** A directory below the source that is not one of its directories: nobody removes it. */
  ghost predicate Strays(t: Disk, d: Disk, src: Path, directories: set<Path>) {
    forall z | DirectoryAt(t, src + z) && z !in directories :: DirectoryAt(d, src + z)
  }

  lemma StraysStay(t: Disk, d: Disk, src: Path, directories: set<Path>, r: Path)
    requires Strays(t, d, src, directories) && r in directories && forall p | p in d :: !(src + r < p)
    ensures Strays(t, d - {src + r}, src, directories)
    ensures r == [] ==> forall z | DirectoryAt(t, src + z) :: z in directories
  {
    forall z | DirectoryAt(t, src + z) && z !in directories
      ensures DirectoryAt(d - {src + r}, src + z) && r != []
    {
      SameTail(src, z, r);
      assert r == [] ==> src + r == src && src < src + z;
    }
  }

  lemma SameTail(src: Path, z: Path, r: Path)
    ensures src + z == src + r ==> z == r
  {
    assert (src + z)[|src|..] == z && (src + r)[|src|..] == r;
  }

  /** A destination inside the source gets a directory that the source never had. */
  lemma InsideStrays(t: Disk, d: Disk, src: Path, dst: Path)
    requires src < dst && DirectoryAt(t, src) && forall r | r in Dirs(t, src) :: DirectoryAt(d, dst + r)
    ensures [] in Dirs(t, src)
    ensures exists z :: DirectoryAt(d, src + z) && z !in Dirs(t, src)
  {
    assert src + [] == src;
    assert [] in Dirs(t, src);
    var r := Longest(Dirs(t, src));
    var z := dst[|src|..] + r;
    assert dst == src + dst[|src|..];
    assert dst + r == src + z;
  }

  /** The source's node `r` is in its new place: a file with its content, or a directory, private if it was made. */
  predicate IsLaid(d: Disk, t: Disk, src: Path, dst: Path, r: Path)
    requires src + r in t
  {
    && dst + r in d
    && if t[src + r].kind.Directory?
       then d[dst + r].kind.Directory? && (dst + r !in t ==> IsNormalized(0, true, d[dst + r].mode))
       else d[dst + r].kind == t[src + r].kind && IsNormalized(t[src + r].mode, false, d[dst + r].mode)
  }

  /** The source is laid over the destination; whatever no file of it replaces is as it was; and the source is gone. */
  ghost predicate LaidOver(d: Disk, t: Disk, src: Path, dst: Path) {
    && (forall r | r in Rel(t, src) :: IsLaid(d, t, src, dst, r))
    && (forall q | q in t && !(src <= q) && !(dst <= q && q[|dst|..] in Files(t, src)) :: q in d && d[q] == t[q])
    && (forall q | q in d :: q in t || (dst <= q && q[|dst|..] in Rel(t, src)))
    && Rel(d, src) == {}
  }

  lemma FileMerged(d: Disk, t: Disk, src: Path, dst: Path, r: Path)
    requires Apart(src, dst) && Merged(d, t, src, dst) && r in Files(t, src)
    ensures dst + r in d && d[dst + r].kind == t[src + r].kind
    ensures IsNormalized(t[src + r].mode, false, d[dst + r].mode)
  {
    Sides(t, src, dst, r);
    NormalizedBits(t[src + r].mode, false);
    assert At(d, dst + r) == MergedAt(t, src, dst, dst + r);
  }

  lemma DirectoryMerged(d: Disk, t: Disk, src: Path, dst: Path, r: Path)
    requires Mergeable(t, src, dst) && Apart(src, dst) && Merged(d, t, src, dst) && r in Dirs(t, src)
    ensures dst + r in d && d[dst + r].kind.Directory?
    ensures dst + r !in t ==> IsNormalized(0, true, d[dst + r].mode)
  {
    Sides(t, src, dst, r);
    NormalizedBits(0, true);
    assert At(d, dst + r) == MergedAt(t, src, dst, dst + r);
    if dst + r in t {
      DirectoryFits(t, src, dst, r);
    }
  }

  /** Two directories; the source holds only directories and files, and meets only its like in the destination. */
  ghost predicate Compatible(t: Disk, src: Path, dst: Path) {
    && src in t && t[src].kind.Directory? && dst in t && t[dst].kind.Directory?
    && forall r | src + r in t ::
         || (t[src + r].kind.Directory? && (dst + r in t ==> t[dst + r].kind.Directory?))
         || (t[src + r].kind.Regular? && (dst + r in t ==> t[dst + r].kind.Regular?))
  }

  lemma AncestorListed(t: Disk, src: Path, r: Path, k: nat)
    requires Hangs(t) && src + r in t && k < |r|
    ensures DirectoryAt(t, src + r[..k])
    decreases |r| - k
  {
    var below := if k + 1 == |r| then r else r[..k + 1];
    if k + 1 < |r| {
      AncestorListed(t, src, r, k + 1);
    }
    assert src + r[..k + 1] == src + r[..k] + [r[k]] && (k + 1 == |r| ==> r[..k + 1] == r);
    HangsAt(t, src + r[..k], r[k], src + below);
  }

  /** The checks accept exactly two compatible directories. */
  lemma MergeableIsCompatible(t: Disk, src: Path, dst: Path)
    requires Hangs(t)
    ensures Mergeable(t, src, dst) <==> Compatible(t, src, dst)
  {
    if Mergeable(t, src, dst) {
      forall r | src + r in t
        ensures t[src + r].kind.Directory? || t[src + r].kind.Regular?
        ensures t[src + r].kind.Directory? && dst + r in t ==> t[dst + r].kind.Directory?
        ensures t[src + r].kind.Regular? && dst + r in t ==> t[dst + r].kind.Regular?
      {
        assert r in Rel(t, src) && NodeMerges(t, src, dst, r) && r[..|r|] == r;
      }
    }
    if Compatible(t, src, dst) {
      forall r | r in Rel(t, src)
        ensures NodeMerges(t, src, dst, r)
      {
        forall k | 0 <= k < |r|
          ensures dst + r[..k] in t ==> DirectoryAt(t, dst + r[..k])
        {
          AncestorListed(t, src, r, k);
        }
        assert r[..|r|] == r;
      }
    }
  }

  /** Every file is somewhere afterwards: the source's in new places, the destination's unless one took its place. */
  lemma NothingLost(d: Disk, t: Disk, src: Path, dst: Path)
    requires Mergeable(t, src, dst) && Apart(src, dst) && Merged(d, t, src, dst)
    ensures LaidOver(d, t, src, dst)
  {
    forall r | r in Rel(t, src)
      ensures IsLaid(d, t, src, dst, r)
    {
      assert NodeMerges(t, src, dst, r);
      if r in Files(t, src) {
        FileMerged(d, t, src, dst, r);
      } else {
        DirectoryMerged(d, t, src, dst, r);
      }
    }
    forall q | q in d
      ensures q in t || (dst <= q && q[|dst|..] in Rel(t, src))
    {
      assert At(d, q) == MergedAt(t, src, dst, q);
    }
    forall q | q in t && !(src <= q) && !(dst <= q && q[|dst|..] in Files(t, src))
      ensures q in d && d[q] == t[q]
    {
      assert At(d, q) == MergedAt(t, src, dst, q);
      if dst <= q && src + q[|dst|..] in t {
        assert NodeMerges(t, src, dst, q[|dst|..]);
      }
    }
    forall r
      ensures src + r !in d
    {
      Sides(t, src, dst, r);
      assert At(d, src + r) == MergedAt(t, src, dst, src + r);
    }
  }

  /**
   * merge_directory: when a check fails nothing has changed.  With neither directory
   * inside the other no step fails after the checks, the destination is the source
   * laid over it, and the source is gone.  A destination inside the source is not
   * refused by the checks, but never merged.
   */
  method MergeDirectory(v: Volume, src: Path, dst: Path) returns (r: Result<(), string>)
    requires Hangs(v.disk)
    modifies v
    ensures !Compatible(old(v.disk), src, dst) ==> r.Err? && v.disk == old(v.disk)
    ensures Apart(src, dst) ==> (r.Ok? <==> Compatible(old(v.disk), src, dst))
    ensures Apart(src, dst) && r.Ok? ==>
      Merged(v.disk, old(v.disk), src, dst) && LaidOver(v.disk, old(v.disk), src, dst)
    ensures src < dst ==> r.Err?
  {
    ghost var t := v.disk;
    MergeableIsCompatible(t, src, dst);
    var surveyed := Survey(v.disk, src, dst);
    if surveyed.Err? {
      return Err(surveyed.error);
    }
    var (directories, transfers) := surveyed.value;
    var made := MakeDirectories(v, src, dst, directories);
    if !made {
      return Err("cannot make a directory");
    }
    var moved := MoveFiles(v, src, dst, transfers, t);
    if !moved {
      return Err("cannot move a file");
    }
    if src < dst {
      InsideStrays(t, v.disk, src, dst);
    }
    var gone := RemoveDirectories(v, src, dst, directories, t);
    if !gone {
      return Err("cannot remove a directory");
    }
    if Apart(src, dst) {
      AllDone(v.disk, t, src, dst);
      NothingLost(v.disk, t, src, dst);
    }
    return Ok(());
  }
}
