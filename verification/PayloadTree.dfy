/** _iter_tree: the members of one payload entry, found with a stack of directories. */
module PayloadTree {
  import opened Wrappers
  import opened FileTree
  import opened Sequences

  /** Every path but [] comes after its parent. */
  predicate ParentsFirst(s: seq<Path>) {
    s == [] || (ParentsFirst(s[..|s| - 1]) && (s[|s| - 1] == [] || Parent(s[|s| - 1]) in s[..|s| - 1]))
  }

  /** The nodes at and below `src`, each once and after its parent, by their paths relative to `src`. */
  ghost predicate Enumerates<C>(t: Tree<C>, src: Path, s: seq<Path>) {
    NoTwice(s) && ParentsFirst(s) && forall r :: r in s <==> src + r in t
  }

  /** The stack holds the yielded directories that have not been opened. */
  ghost predicate Stacked(dirs: set<Path>, yielded: seq<Path>, pending: seq<Path>, done: set<Path>) {
    forall d :: d in pending <==> d in dirs && d in yielded && d !in done
  }

  /** What has been yielded: the root and the children of the opened directories. */
  ghost predicate Opening(nodes: set<Path>, dirs: set<Path>, yielded: seq<Path>, pending: seq<Path>, done: set<Path>) {
    && Stacked(dirs, yielded, pending, done)
    && (forall d | d in done :: d in yielded)
    && forall d, name :: d + [name] in yielded <==> d + [name] in nodes && d in done
  }

  /** The same with the children `left` of the open directory `e` still to come. */
  ghost predicate OpeningChildren(nodes: set<Path>, dirs: set<Path>, yielded: seq<Path>, pending: seq<Path>,
                                  done: set<Path>, e: Path, left: set<string>) {
    && Stacked(dirs, yielded, pending, done) && e in done
    && (forall d | d in done :: d in yielded)
    && (forall name | name in left :: e + [name] in nodes)
    && forall d, name ::
         d + [name] in yielded <==> d + [name] in nodes && d in done && !(d == e && name in left)
  }

  lemma SnocIn(s: seq<Path>, x: Path)
    ensures forall y :: y in s + [x] <==> y in s || y == x
  {
  }

  lemma OpenedLast(nodes: set<Path>, dirs: set<Path>, yielded: seq<Path>, pending: seq<Path>, done: set<Path>,
                   left: set<string>)
    requires Opening(nodes, dirs, yielded, pending, done) && pending != [] && NoTwice(pending)
    requires forall name :: name in left <==> pending[|pending| - 1] + [name] in nodes
    ensures var (e, rest) := (pending[|pending| - 1], pending[..|pending| - 1]);
      e in dirs && e !in done && OpeningChildren(nodes, dirs, yielded, rest, done + {e}, e, left)
  {
    var e, rest := pending[|pending| - 1], pending[..|pending| - 1];
    assert pending == rest + [e];
    SnocIn(rest, e);
    assert e in pending && e !in rest;
  }

  lemma ChildStacked(dirs: set<Path>, yielded: seq<Path>, pending: seq<Path>, done: set<Path>, r: Path)
    requires Stacked(dirs, yielded, pending, done) && r !in yielded && r !in done
    ensures Stacked(dirs, yielded + [r], if r in dirs then pending + [r] else pending, done)
  {
    SnocIn(yielded, r);
    SnocIn(pending, r);
  }

  lemma OneMoreChild(nodes: set<Path>, yielded: seq<Path>, done: set<Path>, e: Path, left: set<string>, name: string,
                     d: Path, n: string)
    requires d + [n] in yielded <==> d + [n] in nodes && d in done && !(d == e && n in left)
    requires name in left && e in done && e + [name] in nodes
    ensures d + [n] in yielded + [e + [name]] <==> d + [n] in nodes && d in done && !(d == e && n in left - {name})
  {
    SnocIn(yielded, e + [name]);
    assert Parent(d + [n]) == d && Parent(e + [name]) == e;
    assert (d + [n])[|d|] == n && (e + [name])[|e|] == name;
    assert d + [n] == e + [name] <==> d == e && n == name;
  }

  lemma ChildYielded(nodes: set<Path>, dirs: set<Path>, yielded: seq<Path>, pending: seq<Path>, done: set<Path>,
                     e: Path, left: set<string>, name: string)
    requires OpeningChildren(nodes, dirs, yielded, pending, done, e, left) && name in left
    ensures e + [name] !in yielded && e + [name] !in pending && e in yielded
    ensures var stack := if e + [name] in dirs then pending + [e + [name]] else pending;
      OpeningChildren(nodes, dirs, yielded + [e + [name]], stack, done, e, left - {name})
  {
    ChildStacked(dirs, yielded, pending, done, e + [name]);
    forall d: Path, n: string
      ensures d + [n] in yielded + [e + [name]] <==> d + [n] in nodes && d in done && !(d == e && n in left - {name})
    {
      OneMoreChild(nodes, yielded, done, e, left, name, d, n);
    }
  }

  lemma ChildrenYielded(nodes: set<Path>, dirs: set<Path>, yielded: seq<Path>, pending: seq<Path>, done: set<Path>,
                        e: Path)
    requires OpeningChildren(nodes, dirs, yielded, pending, done, e, {})
    ensures Opening(nodes, dirs, yielded, pending, done)
  {
  }

  /** The lists themselves: nothing twice, and no path before its parent. */
  ghost predicate Listed(yielded: seq<Path>, pending: seq<Path>) {
    [] in yielded && NoTwice(yielded) && ParentsFirst(yielded) && NoTwice(pending)
  }

  lemma ChildListed(yielded: seq<Path>, pending: seq<Path>, e: Path, name: string)
    requires Listed(yielded, pending) && e in yielded && e + [name] !in yielded && e + [name] !in pending
    ensures Listed(yielded + [e + [name]], pending) && Listed(yielded + [e + [name]], pending + [e + [name]])
  {
    var r := e + [name];
    assert Parent(r) == e;
    assert (yielded + [r])[..|yielded|] == yielded;
  }

  lemma {:induction false} AllYielded(nodes: set<Path>, dirs: set<Path>, yielded: seq<Path>, done: set<Path>, r: Path)
    requires Opening(nodes, dirs, yielded, [], done) && [] in yielded
    requires r in nodes && forall d, name | d + [name] in nodes :: d in nodes && d in dirs
    ensures r in yielded
    decreases |r|
  {
    if r != [] {
      var d, name := Parent(r), r[|r| - 1];
      assert r == d + [name];
      AllYielded(nodes, dirs, yielded, done, d);
    }
  }

  function Directories<C>(t: Tree<C>, src: Path): (s: set<Path>)
    ensures forall r :: r in s <==> IsDirectory(t, src + r)
  {
    set r | r in Under(t, src) && IsDirectory(t, src + r)
  }

  lemma ChildrenUnder<C>(t: Tree<C>, src: Path, d: Path)
    ensures forall name :: name in Children(t, src + d) <==> d + [name] in Under(t, src)
  {
    forall name
      ensures name in Children(t, src + d) <==> d + [name] in Under(t, src)
    {
      assert src + d + [name] == src + (d + [name]);
    }
  }

  lemma ParentsUnder<C>(t: Tree<C>, src: Path)
    requires WellFormed(t)
    ensures forall d, name | d + [name] in Under(t, src) :: d in Under(t, src) && d in Directories(t, src)
  {
    forall d: Path, name: string | d + [name] in Under(t, src)
      ensures d in Under(t, src) && d in Directories(t, src)
    {
      assert Parent(src + (d + [name])) == src + d;
    }
  }

  /** One directory's children, yielded and stacked; the order of siblings is left open. */
  method YieldChildren<C>(t: Tree<C>, src: Path, d: Path, yielded: seq<Path>, pending: seq<Path>, ghost done: set<Path>)
      returns (more: seq<Path>, stack: seq<Path>)
    requires OpeningChildren(Under(t, src), Directories(t, src), yielded, pending, done, d, Children(t, src + d))
    requires Listed(yielded, pending)
    ensures Opening(Under(t, src), Directories(t, src), more, stack, done) && Listed(more, stack)
    ensures forall r | r in yielded :: r in more
    ensures (forall r | r in yielded :: r in Under(t, src)) ==> forall r | r in more :: r in Under(t, src)
  {
    ghost var nodes, dirs := Under(t, src), Directories(t, src);
    more, stack := yielded, pending;
    var left := Children(t, src + d);
    while left != {}
      invariant OpeningChildren(nodes, dirs, more, stack, done, d, left) && Listed(more, stack)
      invariant forall r | r in yielded :: r in more
      invariant (forall r | r in yielded :: r in nodes) ==> forall r | r in more :: r in nodes
      decreases left
    {
      var name :| name in left;
      ChildYielded(nodes, dirs, more, stack, done, d, left, name);
      ChildListed(more, stack, d, name);
      var child := d + [name];
      more := more + [child];
      if IsDirectory(t, src + child) {
        stack := stack + [child];
      }
      left := left - {name};
    }
    ChildrenYielded(nodes, dirs, more, stack, done, d);
  }

  lemma FileAlone<C>(t: Tree<C>, src: Path)
    requires WellFormed(t) && src in t && !IsDirectory(t, src)
    ensures Enumerates(t, src, [[]])
  {
    assert src + [] == src;
    forall q: Path | src + q in t
      ensures q == []
    {
      if q != [] {
        NothingBelowFile(t, src, src + q);
      }
    }
  }

  /** _iter_tree: fails only for a missing input, and yields every node at and below it once, parents first. */
  method IterTree<C>(t: Tree<C>, src: Path) returns (r: Result<seq<Path>, string>)
    requires WellFormed(t)
    ensures r.Ok? <==> src in t
    ensures r.Ok? ==> Enumerates(t, src, r.value)
  {
    if src !in t {
      return Err("payload input is missing");
    }
    var yielded: seq<Path> := [[]];
    if !IsDirectory(t, src) {
      FileAlone(t, src);
      return Ok(yielded);
    }
    assert src + [] == src;
    var pending: seq<Path> := [[]];
    ghost var nodes, dirs, done := Under(t, src), Directories(t, src), {};
    while pending != []
      invariant Opening(nodes, dirs, yielded, pending, done) && Listed(yielded, pending)
      invariant forall r | r in yielded :: r in nodes
      decreases dirs - done
    {
      var d := pending[|pending| - 1];
      ChildrenUnder(t, src, d);
      OpenedLast(nodes, dirs, yielded, pending, done, Children(t, src + d));
      pending := pending[..|pending| - 1];
      done := done + {d};
      yielded, pending := YieldChildren(t, src, d, yielded, pending, done);
    }
    ParentsUnder(t, src);
    forall q | q in nodes
      ensures q in yielded
    {
      AllYielded(nodes, dirs, yielded, done, q);
    }
    return Ok(yielded);
  }
}
