/** What a run of pathname resolution gets to, and which runs never arrive. */
module PayloadRuns {
  import opened FileTree
  import opened PayloadLinks

  /** The run from `w` gets to `path` with `pending` left. */
  ghost predicate Gets(p: Payload, w: Walk, path: Path, pending: seq<string>) {
    exists m: nat, u :: GetsIn(p, w, path, pending, m, u)
  }

  ghost predicate GetsIn(p: Payload, w: Walk, path: Path, pending: seq<string>, m: nat, u: seq<Path>) {
    Run(p, w, m) == On(Walk(path, pending, u))
  }

  /** The run from `w` gets to `path` with `names`, and `behind` them others, left. */
  ghost predicate GetsWith(p: Payload, w: Walk, path: Path, names: seq<string>, behind: seq<string>) {
    Gets(p, w, path, names + behind)
  }

  /** A link's target, from the link's directory. */
  function From(p: Payload, l: Path): Walk
    requires l in p.links && l != []
  {
    Walk(Parent(l), p.links[l], [])
  }

  /** The link leads to `q`. */
  ghost predicate LeadsTo(p: Payload, l: Path, q: Path)
    requires l in p.links && l != []
  {
    Gets(p, From(p, l), q, []) && Plain(p, Parent(l))
  }

  lemma {:induction false} GetsNext(p: Payload, w: Walk, path: Path, pending: seq<string>)
    requires Gets(p, w, path, pending)
    ensures var s := Step(p, Walk(path, pending, []));
      s.On? ==> Gets(p, w, s.walk.resolved, s.walk.pending)
    ensures pending == [] ==> exists n: nat :: Arrives(p, w, n) && Run(p, w, n).path == path
  {
    var m: nat, u :| GetsIn(p, w, path, pending, m, u);
    RunJoins(p, w, m, 1);
    var s, t := Step(p, Walk(path, pending, [])), Step(p, Walk(path, pending, u));
    if s.On? {
      assert GetsIn(p, w, s.walk.resolved, s.walk.pending, m + 1, t.walk.used);
    }
    if pending == [] {
      assert Arrives(p, w, m + 1);
    }
  }

  /** A link met again leads where it led, whatever is behind it. */
  lemma GetsByLink(p: Payload, w: Walk, path: Path, part: string, rest: seq<string>, q: Path)
    requires Gets(p, w, path, [part] + rest) && !Skipped(part) && part != ".."
    requires path + [part] in p.links && LeadsTo(p, path + [part], q)
    ensures Gets(p, w, q, rest)
  {
    var l := path + [part];
    GetsNext(p, w, path, [part] + rest);
    assert ([part] + rest)[1..] == rest && Parent(l) == path;
    var m: nat, u :| GetsIn(p, w, path, p.links[l] + rest, m, u);
    var n: nat, v :| GetsIn(p, From(p, l), q, [], n, v);
    GetsNext(p, From(p, l), q, []);
    var k: nat :| Arrives(p, From(p, l), k) && Run(p, From(p, l), k).path == q;
    var j, z := RunAhead(p, From(p, l), k, rest, u);
    RunJoins(p, w, m, j);
    assert GetsIn(p, w, q, rest, m + j, z);
  }

  // Paths that lead nowhere

  ghost predicate NeverArrives(p: Payload, w: Walk) {
    forall n: nat :: !Arrives(p, w, n)
  }

  /** What arrives with more to resolve behind it arrives alone. */
  lemma {:induction false} ArrivesAlone(p: Payload, w: Walk, rest: seq<string>, used: seq<Path>, n: nat)
    requires Arrives(p, Walk(w.resolved, w.pending + rest, used), n)
    ensures exists k: nat :: Arrives(p, w, k)
    decreases n
  {
    var longer := Walk(w.resolved, w.pending + rest, used);
    if w.pending == [] {
      assert Arrives(p, w, 1);
    } else {
      assert longer.pending[1..] == w.pending[1..] + rest;
      var next, after := Step(p, w).walk, Step(p, longer).walk;
      assert after.pending == next.pending + rest;
      ArrivesAlone(p, next, rest, after.used, n - 1);
      var k: nat :| Arrives(p, next, k);
      assert Arrives(p, w, k + 1);
    }
  }

  /** A walk that comes back to its start with more behind it never arrives. */
  lemma BackToStart(p: Payload, w: Walk, above: seq<string>, k: nat, u: seq<Path>)
    requires Plain(p, w.resolved) && k > 0 && GetsIn(p, w, w.resolved, w.pending + above, k, u)
    ensures NeverArrives(p, w)
  {
    forall n: nat | Arrives(p, w, n)
      ensures false
    {
      var m, v := RunAhead(p, w, n, above, u);
      RunJoins(p, w, k, m);
      StaysStopped(p, w, m + 1, k + m);
    }
  }

  /** Resolved from its directory, the link comes back to itself, with more names behind it. */
  ghost predicate ReEnters(p: Payload, l: Path) {
    && l in p.links && l != [] && Plain(p, Parent(l))
    && !Skipped(l[|l| - 1]) && l[|l| - 1] != ".."
    && exists above :: BackAt(p, l, above)
  }

  ghost predicate BackAt(p: Payload, l: Path, above: seq<string>)
    requires l in p.links && l != []
  {
    Gets(p, From(p, l), Parent(l), [l[|l| - 1]] + above)
  }

  lemma ReEnteredNever(p: Payload, l: Path)
    requires ReEnters(p, l)
    ensures NeverArrives(p, From(p, l))
  {
    var part := l[|l| - 1];
    var above :| BackAt(p, l, above);
    var m: nat, u :| GetsIn(p, From(p, l), Parent(l), [part] + above, m, u);
    RunJoins(p, From(p, l), m, 1);
    assert ([part] + above)[1..] == above && Parent(l) + [part] == l;
    BackToStart(p, From(p, l), above, m + 1, u + [l]);
  }

  /** A run that enters a link that never arrives never arrives. */
  lemma NeverThrough(p: Payload, w: Walk, l: Path, more: seq<string>)
    requires l in p.links && l != [] && Gets(p, w, Parent(l), p.links[l] + more) && NeverArrives(p, From(p, l))
    ensures NeverArrives(p, w)
  {
    forall n: nat | Arrives(p, w, n)
      ensures false
    {
      var m: nat, u :| GetsIn(p, w, Parent(l), p.links[l] + more, m, u);
      if n <= m {
        RunBefore(p, w, n, m);
      } else {
        RunJoins(p, w, m, n - m);
        ArrivesAlone(p, From(p, l), more, u, n - m);
      }
    }
  }

  /** A ".." at the root. */
  lemma ClimbStep(p: Payload, w: Walk, rest: seq<string>)
    requires Gets(p, w, [], [".."] + rest)
    ensures NeverArrives(p, w)
  {
    var m: nat, u :| GetsIn(p, w, [], [".."] + rest, m, u);
    RunJoins(p, w, m, 1);
    forall n: nat | Arrives(p, w, n)
      ensures false
    {
      if n <= m + 1 {
        StaysStopped(p, w, n, m + 1);
      } else {
        StaysStopped(p, w, m + 1, n);
      }
    }
  }

  /** The names lead to `q`, links followed, without leaving the payload. */
  ghost predicate ArrivesAt(p: Payload, names: seq<string>, q: Path) {
    exists n: nat :: Arrives(p, Walk([], names, []), n) && Run(p, Walk([], names, []), n).path == q
  }

  lemma {:induction false} GetsOnce(p: Payload, w: Walk, q: Path, n: nat, path: Path)
    requires Arrives(p, w, n) && Run(p, w, n).path == q && Gets(p, w, path, [])
    ensures path == q
  {
    GetsNext(p, w, path, []);
    var m: nat :| Arrives(p, w, m) && Run(p, w, m).path == path;
    StaysStopped(p, w, if m <= n then m else n, if m <= n then n else m);
  }

  lemma ArrivesOnce(p: Payload, names: seq<string>, path: Path)
    requires Gets(p, Walk([], names, []), path, [])
    ensures forall q :: ArrivesAt(p, names, q) <==> q == path
  {
    var w := Walk([], names, []);
    GetsNext(p, w, path, []);
    var n: nat :| Arrives(p, w, n) && Run(p, w, n).path == path;
    forall q | ArrivesAt(p, names, q)
      ensures q == path
    {
      var m: nat :| Arrives(p, w, m) && Run(p, w, m).path == q;
      GetsOnce(p, w, q, m, path);
    }
  }

  // Links

  /** A link's target resolves to some place inside the payload, following however many links it takes. */
  ghost predicate Inside(p: Payload, l: Path) {
    l in p.links && l != [] && exists n: nat :: Arrives(p, Start(p, l), n)
  }

  /** A link that hangs from no other is resolved by its name exactly when its target resolves. */
  lemma InsideByName(p: Payload, l: Path)
    requires l in p.links && l != [] && Names(l) && Plain(p, Parent(l))
    ensures Inside(p, l) <==> exists q :: ArrivesAt(p, l, q)
  {
    var dir, last := Parent(l), l[|l| - 1];
    var named := Walk([], l, []);
    assert [] + dir == dir && dir + [last] == l && p.links[l] + [] == p.links[l] && [last] + [] == [last];
    Descend(p, [], dir, p.links[l], []);
    Descend(p, [], dir, [last], []);
    assert GetsIn(p, Start(p, l), dir, p.links[l], |dir|, []);
    assert GetsIn(p, named, dir, [last], |dir|, []);
    assert last in l;
    GetsNext(p, named, dir, [last]);
    if Inside(p, l) {
      var n: nat :| Arrives(p, Start(p, l), n);
      ArrivesOn(p, Start(p, l), named, dir, p.links[l], n);
      var k: nat :| Arrives(p, named, k);
      assert ArrivesAt(p, l, Run(p, named, k).path);
    }
    if q :| ArrivesAt(p, l, q) {
      var n: nat :| Arrives(p, named, n) && Run(p, named, n).path == q;
      ArrivesOn(p, named, Start(p, l), dir, p.links[l], n);
    }
  }

  /** Two runs that get to the same place with the same left arrive together. */
  lemma ArrivesOn(p: Payload, w: Walk, v: Walk, path: Path, pending: seq<string>, n: nat)
    requires Plain(p, path) && Gets(p, w, path, pending) && Gets(p, v, path, pending) && Arrives(p, w, n)
    ensures exists k: nat :: Arrives(p, v, k)
  {
    var m: nat, u :| GetsIn(p, w, path, pending, m, u);
    var j: nat, z :| GetsIn(p, v, path, pending, j, z);
    if n <= m {
      RunBefore(p, w, n, m);
    }
    RunJoins(p, w, m, n - m);
    assert pending + [] == pending;
    var i, y := RunAhead(p, Walk(path, pending, u), n - m, [], z);
    RunJoins(p, v, j, i + 1);
    RunJoins(p, Walk(path, pending, z), i, 1);
    assert Arrives(p, v, j + i + 1);
  }
}
