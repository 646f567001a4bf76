/**
 * A directory tree as a finite map from path to node.  A path is the sequence
 * of names below the tree's root, and [] is the root itself.
 */
module FileTree {
  import opened Wrappers

  type Path = seq<string>

  /** `target` is the text of a link split at "/"; an absolute one starts with "". */
  datatype Kind<C> = Directory | Regular(content: C) | Symlink(target: seq<string>) | Special

  /**
   * `inode` stands for the pair of device and inode.  `owned` is true when the
   * node belongs to this user and, for a file, has a single link.
   */
  datatype Node<C> = Node(kind: Kind<C>, inode: nat, mode: nat, owned: bool)

  type Tree<C> = map<Path, Node<C>>

  function Get<C>(t: Tree<C>, p: Path): Option<Node<C>> {
    if p in t then Some(t[p]) else None
  }

  function Parent(p: Path): Path
    requires p != []
  {
    p[..|p| - 1]
  }

  predicate IsDirectory<C>(t: Tree<C>, p: Path) {
    p in t && t[p].kind.Directory?
  }

  /** Every node hangs from a directory. */
  ghost predicate WellFormed<C>(t: Tree<C>) {
    && IsDirectory(t, [])
    && forall p | p in t && p != [] :: IsDirectory(t, Parent(p))
  }

  /** The paths below `p`, relative to it; [] stands for `p` itself. */
  function Under<C>(t: Tree<C>, p: Path): (s: set<Path>)
    ensures forall r :: r in s <==> p + r in t
  {
    var s := set q | q in t && p <= q :: q[|p|..];
    assert forall r {:trigger p + r} :: p <= p + r && (p + r)[|p|..] == r;
    assert forall q | q in t && p <= q :: q == p + q[|p|..];
    s
  }

  /** The part of the tree rooted at `p`, with relative paths. */
  function Sub<C>(t: Tree<C>, p: Path): (m: Tree<C>)
    ensures forall r :: r in m <==> p + r in t
    ensures forall r | r in m :: m[r] == t[p + r]
  {
    map r | r in Under(t, p) :: t[p + r]
  }

  function Children<C>(t: Tree<C>, p: Path): (s: set<string>)
    ensures forall n :: n in s <==> p + [n] in t
  {
    var s := set r | r in Under(t, p) && |r| == 1 :: r[0];
    assert forall n :: p + [n] in t ==> [n][0] == n && [n] in Under(t, p);
    assert forall r: Path | |r| == 1 :: r == [r[0]];
    s
  }

  /** `rename`: everything at `src` moves to `dst`. */
  function Moved<C>(t: Tree<C>, src: Path, dst: Path): (m: Tree<C>)
    ensures forall q :: q in m <==> (dst <= q && src + q[|dst|..] in t) || (q in t && !(src <= q))
    ensures forall q | q in m ::
      m[q] == if dst <= q && src + q[|dst|..] in t then t[src + q[|dst|..]] else t[q]
  {
    var moved := set r | r in Under(t, src) :: dst + r;
    assert forall q :: dst <= q ==> q == dst + q[|dst|..];
    assert forall r :: (dst + r)[|dst|..] == r;
    assert forall q :: q in moved <==> dst <= q && src + q[|dst|..] in t;
    map q | q in (set p | p in t && !(src <= p)) + moved ::
      if dst <= q && src + q[|dst|..] in t then t[src + q[|dst|..]] else t[q]
  }

  function Removed<C>(t: Tree<C>, q: Path): Tree<C> {
    t - {q}
  }

  /** Nothing lies below `q`. */
  predicate IsLeaf<C>(t: Tree<C>, q: Path) {
    q in t && forall p | p in t :: !(q < p)
  }

  ghost predicate AgreeBelow<C>(t: Tree<C>, u: Tree<C>, p: Path) {
    forall q | p <= q :: Get(t, q) == Get(u, q)
  }

  lemma SubFrame<C>(t: Tree<C>, u: Tree<C>, p: Path)
    requires AgreeBelow(t, u, p)
    ensures Sub(t, p) == Sub(u, p)
  {
    forall r
      ensures r in Sub(t, p) <==> r in Sub(u, p)
      ensures r in Sub(t, p) ==> Sub(t, p)[r] == Sub(u, p)[r]
    {
      assert Get(t, p + r) == Get(u, p + r);
    }
  }

  lemma SameTree<C>(m: Tree<C>, n: Tree<C>)
    requires forall r :: r in m <==> r in n
    requires forall r | r in m :: m[r] == n[r]
    ensures m == n
  {
  }

  lemma MovedThere<C>(t: Tree<C>, src: Path, dst: Path, r: Path)
    requires Sub(t, dst) == map[]
    ensures Get(Sub(Moved(t, src, dst), dst), r) == Get(Sub(t, src), r)
  {
    assert (dst + r)[|dst|..] == r && dst <= dst + r;
    assert dst + r in t ==> r in Sub(t, dst);
  }

  lemma MovedAway<C>(t: Tree<C>, src: Path, dst: Path, r: Path)
    requires !(src <= dst) && !(dst <= src)
    ensures r !in Sub(Moved(t, src, dst), src)
  {
    assert src <= src + r;
    ApartBelow(src, dst, src + r);
  }

  /** A move carries the whole part below `src` and leaves the rest in place. */
  lemma MovedSub<C>(t: Tree<C>, src: Path, dst: Path)
    requires !(src <= dst) && !(dst <= src) && Sub(t, dst) == map[]
    ensures Sub(Moved(t, src, dst), dst) == Sub(t, src)
    ensures Sub(Moved(t, src, dst), src) == map[]
    ensures forall q | !(src <= q) && !(dst <= q) :: Get(Moved(t, src, dst), q) == Get(t, q)
  {
    var there, away := Sub(Moved(t, src, dst), dst), Sub(Moved(t, src, dst), src);
    forall r
      ensures Get(there, r) == Get(Sub(t, src), r) && r !in away
    {
      MovedThere(t, src, dst, r);
      MovedAway(t, src, dst, r);
    }
    forall r
      ensures r in there <==> r in Sub(t, src)
      ensures r in there ==> there[r] == Sub(t, src)[r]
    {
      assert Get(there, r) == Get(Sub(t, src), r);
    }
    SameTree(there, Sub(t, src));
    SameTree(away, map[]);
  }

  lemma PrefixesNest(p: Path, q: Path, r: Path)
    requires p <= r && q <= r
    ensures p <= q || q <= p
  {
    assert p == r[..|p|] && q == r[..|q|];
    if |p| <= |q| {
      assert p == q[..|p|];
    } else {
      assert q == p[..|q|];
    }
  }

  lemma ApartBelow(p: Path, q: Path, r: Path)
    requires !(p <= q) && !(q <= p) && p <= r
    ensures !(q <= r)
  {
    if q <= r {
      PrefixesNest(p, q, r);
    }
  }

  /** A non-empty part has a node with nothing below it. */
  lemma LeafExists<C>(t: Tree<C>, p: Path, q: Path) returns (leaf: Path)
    requires q in t && p <= q
    ensures p <= leaf && IsLeaf(t, leaf)
    decreases (set x | x in t && q < x)
  {
    if IsLeaf(t, q) {
      leaf := q;
    } else {
      var x :| x in t && q < x;
      var above, higher := set y | y in t && q < y, set y | y in t && x < y;
      assert x in above && x !in higher;
      assert higher <= above;
      leaf := LeafExists(t, p, x);
    }
  }

  lemma DropSize<C>(m: Tree<C>, r: Path)
    requires r in m
    ensures |m - {r}| == |m| - 1
  {
    assert (m - {r}).Keys == m.Keys - {r};
  }

  /** Dropping one node below `p` drops exactly its relative path. */
  lemma RemovedSub<C>(t: Tree<C>, p: Path, r: Path)
    requires p + r in t
    ensures Sub(Removed(t, p + r), p) == Sub(t, p) - {r}
  {
    var m := Sub(Removed(t, p + r), p);
    forall x
      ensures x in m <==> x in Sub(t, p) && x != r
    {
      assert (p + x)[|p|..] == x && (p + r)[|p|..] == r;
    }
  }

  lemma RemovedFrame<C>(t: Tree<C>, q: Path, p: Path)
    requires !(p <= q)
    ensures Sub(Removed(t, q), p) == Sub(t, p)
  {
    SubFrame(Removed(t, q), t, p);
  }

  /** Creating one node where nothing was. */
  lemma CreatedSub<C>(t: Tree<C>, q: Path, n: Node<C>)
    requires Sub(t, q) == map[]
    ensures Sub(t[q := n], q) == map[[] := n]
  {
    var m := Sub(t[q := n], q);
    assert q + [] == q;
    forall r | r in m
      ensures r == []
    {
      assert q + r in t ==> r in Sub(t, q);
      assert (q + r)[|q|..] == r;
    }
  }

  lemma CreatedFrame<C>(t: Tree<C>, q: Path, n: Node<C>, p: Path)
    requires !(p <= q)
    ensures Sub(t[q := n], p) == Sub(t, p)
  {
    SubFrame(t[q := n], t, p);
  }

  /** Only directories have something below them. */
  lemma {:induction false} NothingBelowFile<C>(t: Tree<C>, p: Path, q: Path)
    requires WellFormed(t) && p in t && !t[p].kind.Directory? && p < q
    ensures q !in t
    decreases |q|
  {
    if q in t {
      assert p <= Parent(q);
      if Parent(q) != p {
        NothingBelowFile(t, p, Parent(q));
      }
    }
  }
}
