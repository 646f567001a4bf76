/** Where the symbolic links of a payload lead: pathname resolution, one component at a time. */
module PayloadLinks {
  import opened FileTree

  datatype Member = DirectoryMember | FileMember | LinkMember

  /** The members of a payload, and the text of each symbolic link split at "/". */
  datatype Payload = Payload(kinds: map<Path, Member>, links: map<Path, seq<string>>)

  ghost predicate Coherent(p: Payload) {
    && (forall q :: q in p.links <==> q in p.kinds && p.kinds[q] == LinkMember)
    && [] !in p.kinds
  }

  predicate Skipped(part: string) {
    part == "" || part == "."
  }

  /** A resolution under way, and the links it has followed so far. */
  datatype Walk = Walk(resolved: Path, pending: seq<string>, used: seq<Path>)

  datatype State = On(walk: Walk) | Arrived(path: Path, used: seq<Path>) | Climbed | Stuck

  function Step(p: Payload, w: Walk): State {
    if w.pending == [] then Arrived(w.resolved, w.used)
    else
      var part, rest := w.pending[0], w.pending[1..];
      if Skipped(part) then On(Walk(w.resolved, rest, w.used))
      else if part == ".." then
        if w.resolved == [] then Climbed else On(Walk(Parent(w.resolved), rest, w.used))
      else
        var candidate := w.resolved + [part];
        if candidate in p.links then On(Walk(w.resolved, p.links[candidate] + rest, w.used + [candidate]))
        else On(Walk(candidate, rest, w.used))
  }

  function Run(p: Payload, w: Walk, n: nat): State
    decreases n
  {
    if n == 0 then On(w)
    else
      var s := Step(p, w);
      if s.On? then Run(p, s.walk, n - 1) else s
  }

  /** What the system does besides: it stops at a component that is missing or below a file. */
  predicate Blocked(p: Payload, w: Walk) {
    && w.pending != [] && !Skipped(w.pending[0]) && w.pending[0] != ".."
    && var candidate := w.resolved + [w.pending[0]];
       && candidate !in p.links
       && ((forall q | q in p.kinds :: !(candidate <= q)) || (candidate in p.kinds && p.kinds[candidate].FileMember?
             && |w.pending| > 1))
  }

  /** Resolution as the system does it. */
  ghost function SystemRun(p: Payload, w: Walk, n: nat): State
    decreases n
  {
    if n == 0 then On(w)
    else if Blocked(p, w) then Stuck
    else
      var s := Step(p, w);
      if s.On? then SystemRun(p, s.walk, n - 1) else s
  }

  /** Resolution of a link's target starts at the link's directory, reached from the payload's root. */
  function Start(p: Payload, link: Path): Walk
    requires link in p.links && link != []
  {
    Walk([], Parent(link) + p.links[link], [])
  }

  ghost predicate Arrives(p: Payload, w: Walk, n: nat) {
    Run(p, w, n).Arrived?
  }

  /** A link resolves inside the payload, following at most as many links as there are. */
  ghost predicate Resolves(p: Payload, link: Path)
    requires link in p.links && link != []
  {
    exists n :: Arrives(p, Start(p, link), n) && |Run(p, Start(p, link), n).used| <= |p.links|
  }

  // Runs

  lemma {:induction false} RunJoins(p: Payload, w: Walk, m: nat, k: nat)
    requires Run(p, w, m).On?
    ensures Run(p, w, m + k) == Run(p, Run(p, w, m).walk, k)
    decreases m
  {
    if m > 0 {
      RunJoins(p, Step(p, w).walk, m - 1, k);
    }
  }

  lemma {:induction false} RunBefore(p: Payload, w: Walk, n: nat, m: nat)
    requires n <= m && Run(p, w, m).On?
    ensures Run(p, w, n).On?
    decreases n
  {
    if n > 0 {
      RunBefore(p, Step(p, w).walk, n - 1, m - 1);
    }
  }

  /** A run only adds to the links followed, and follows links of the payload. */
  lemma {:induction false} UsedGrows(p: Payload, w: Walk, n: nat)
    requires forall l | l in w.used :: l in p.links
    ensures Run(p, w, n).On? ==>
      w.used <= Run(p, w, n).walk.used && forall l | l in Run(p, w, n).walk.used :: l in p.links
    ensures Run(p, w, n).Arrived? ==> w.used <= Run(p, w, n).used && forall l | l in Run(p, w, n).used :: l in p.links
    decreases n
  {
    if n > 0 && Step(p, w).On? {
      UsedGrows(p, Step(p, w).walk, n - 1);
    }
  }

  /** The walker stops later than the system, and never climbs less. */
  lemma {:induction false} SystemStopsEarlier(p: Payload, w: Walk, n: nat)
    ensures SystemRun(p, w, n) == Run(p, w, n) || SystemRun(p, w, n) == Stuck
    decreases n
  {
    if n > 0 && Step(p, w).On? {
      SystemStopsEarlier(p, Step(p, w).walk, n - 1);
    }
  }

  lemma {:induction false} StaysStopped(p: Payload, w: Walk, n: nat, k: nat)
    requires !Run(p, w, n).On? && n <= k
    ensures Run(p, w, k) == Run(p, w, n)
    decreases n
  {
    if n > 0 && Step(p, w).On? {
      StaysStopped(p, Step(p, w).walk, n - 1, k - 1);
    }
  }

  /** The system's own resolution ends within `n` steps, and no step of it leaves the payload. */
  ghost predicate EndsInside(p: Payload, w: Walk, n: nat) {
    forall k: nat :: !SystemRun(p, w, k).Climbed? && (k >= n ==> !SystemRun(p, w, k).On?)
  }

  lemma ResolutionEnds(p: Payload, w: Walk, n: nat)
    requires Arrives(p, w, n)
    ensures EndsInside(p, w, n)
  {
    forall k: nat
      ensures !SystemRun(p, w, k).Climbed? && (k >= n ==> !SystemRun(p, w, k).On?)
    {
      SystemStopsEarlier(p, w, k);
      if k >= n {
        StaysStopped(p, w, n, k);
      } else if !Run(p, w, k).On? {
        StaysStopped(p, w, k, n);
      }
    }
  }

  // Links used twice

  ghost predicate Repeats(s: seq<Path>) {
    exists i, j :: 0 <= i < j < |s| && s[i] == s[j]
  }

  lemma {:induction false} MoreThanThereAre(s: seq<Path>, all: set<Path>)
    requires (forall x | x in s :: x in all) && |s| > |all|
    ensures Repeats(s)
    decreases |s|
  {
    var last, init := s[|s| - 1], s[..|s| - 1];
    if last in init {
      var i :| 0 <= i < |init| && init[i] == last;
      assert s[i] == s[|s| - 1];
    } else {
      MoreThanThereAre(init, all - {last});
      var i, j :| 0 <= i < j < |init| && init[i] == init[j];
      assert s[i] == s[j];
    }
  }

  // Any path

  /** No proper ancestor of a link, and no prefix of what is resolved, is itself a link. */
  ghost predicate Plain(p: Payload, q: Path) {
    forall k | 0 < k <= |q| :: q[..k] !in p.links
  }

  lemma StepKeepsPlain(p: Payload, w: Walk)
    requires Plain(p, w.resolved) && Step(p, w).On?
    ensures Plain(p, Step(p, w).walk.resolved)
  {
    var q := Step(p, w).walk.resolved;
    forall k | 0 < k <= |q|
      ensures q[..k] !in p.links
    {
      if k <= |w.resolved| {
        assert q[..k] == w.resolved[..k];
      } else {
        assert q[..k] == q;
      }
    }
  }

  /** Resolution with more to resolve behind it first does what it would do alone. */
  lemma {:induction false} RunAhead(p: Payload, w: Walk, n: nat, rest: seq<string>, used: seq<Path>)
      returns (m: nat, u: seq<Path>)
    requires Arrives(p, w, n) && Plain(p, w.resolved)
    ensures Plain(p, Run(p, w, n).path)
    ensures Run(p, Walk(w.resolved, w.pending + rest, used), m) == On(Walk(Run(p, w, n).path, rest, u))
    ensures !Run(p, w, m + 1).On?
    decreases n
  {
    if w.pending == [] {
      assert w.pending + rest == rest;
      m, u := 0, used;
    } else {
      var longer := Walk(w.resolved, w.pending + rest, used);
      var next, after := Step(p, w).walk, Step(p, longer).walk;
      assert longer.pending[1..] == w.pending[1..] + rest;
      assert after.resolved == next.resolved && after.pending == next.pending + rest;
      StepKeepsPlain(p, w);
      m, u := RunAhead(p, next, n - 1, rest, after.used);
      m := m + 1;
    }
  }

  predicate Names(q: Path) {
    forall part | part in q :: !Skipped(part) && part != ".."
  }

  /** Names that lead through no link are resolved one by one. */
  lemma {:induction false} Descend(p: Payload, base: Path, q: Path, rest: seq<string>, used: seq<Path>)
    requires Plain(p, base + q) && Names(q)
    ensures Run(p, Walk(base, q + rest, used), |q|) == On(Walk(base + q, rest, used))
    decreases |q|
  {
    if q == [] {
      assert q + rest == rest && base + q == base;
    } else {
      var w := Walk(base, q + rest, used);
      assert (base + q)[..|base| + 1] == base + [q[0]];
      assert w.pending[0] == q[0] && w.pending[1..] == q[1..] + rest;
      assert base + [q[0]] + q[1..] == base + q;
      Descend(p, base + [q[0]], q[1..], rest, used);
    }
  }

  /** Links as a manifest holds them: they hang from no other link, and each resolves. */
  ghost predicate Accepted(p: Payload) {
    forall l | l in p.links :: l != [] && Names(l) && Plain(p, Parent(l)) && Resolves(p, l)
  }

  /** An accepted link resolves from its own directory, whatever is still to resolve behind it. */
  lemma LinkAhead(p: Payload, l: Path, rest: seq<string>, used: seq<Path>) returns (q: Path, m: nat, u: seq<Path>)
    requires Accepted(p) && l in p.links
    ensures Plain(p, q) && Run(p, Walk(Parent(l), p.links[l] + rest, used), m) == On(Walk(q, rest, u))
  {
    var start, n: nat :| start == Start(p, l) && Arrives(p, start, n);
    var dir := Parent(l);
    assert [] + dir == dir;
    Descend(p, [], dir, p.links[l], []);
    if n <= |dir| {
      RunBefore(p, start, n, |dir|);
    }
    RunJoins(p, start, |dir|, n - |dir|);
    var inner := Walk(dir, p.links[l], []);
    assert Arrives(p, inner, n - |dir|);
    m, u := RunAhead(p, inner, n - |dir|, rest, used);
    q := Run(p, inner, n - |dir|).path;
  }

  lemma {:induction false} PathArrives(p: Payload, base: Path, path: Path, used: seq<Path>) returns (n: nat)
    requires Accepted(p) && Plain(p, base) && Names(path)
    ensures Arrives(p, Walk(base, path, used), n)
    decreases |path|
  {
    var w := Walk(base, path, used);
    if path == [] {
      n := 1;
    } else {
      var candidate, rest := base + [path[0]], path[1..];
      var next := Step(p, w).walk;
      if candidate in p.links {
        var q, m, u := LinkAhead(p, candidate, rest, next.used);
        var k := PathArrives(p, q, rest, u);
        RunJoins(p, next, m, k);
        n := m + k + 1;
      } else {
        StepKeepsPlain(p, w);
        var k := PathArrives(p, candidate, rest, used);
        n := k + 1;
      }
    }
  }

  /** In an accepted payload every path resolves to its end, without ever leaving the payload. */
  lemma EveryPathEndsInside(p: Payload, path: Path)
    requires Accepted(p) && Names(path)
    ensures exists n: nat :: EndsInside(p, Walk([], path, []), n)
  {
    var n := PathArrives(p, [], path, []);
    ResolutionEnds(p, Walk([], path, []), n);
  }
}
