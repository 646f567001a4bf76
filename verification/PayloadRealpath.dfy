/**
 * os.path.realpath without `strict`, as Python has it up to 3.12, without its memory:
 * a recursion into each link that gives up at a link it is already in, and then
 * answers with the text of what is left.
 */
module PayloadRealpath {
  import opened FileTree
  import opened PayloadLinks
  import opened PayloadGraph
  import opened PayloadMembers
  import opened PayloadRuns

  /**
   * Where names lead: to a path, above the payload, or back to a link they are in;
   * `left` has the names left there, and then those left behind each link around it.
   */
  datatype Ending = Reached(path: Path) | Escaped | Caught(link: Path, left: seq<seq<string>>)

  /** `names` from `path`, inside the links in `entered`. */
  function Follow(p: Payload, entered: set<Path>, path: Path, names: seq<string>): Ending
    decreases p.links.Keys - entered, |names|
  {
    if names == [] then Reached(path)
    else
      var part, rest := names[0], names[1..];
      if Skipped(part) then Follow(p, entered, path, rest)
      else if part == ".." then if path == [] then Escaped else Follow(p, entered, Parent(path), rest)
      else
        var candidate := path + [part];
        if candidate !in p.links then Follow(p, entered, candidate, rest)
        else if candidate in entered then Caught(candidate, [rest])
        else
          assert candidate in p.links.Keys - entered;
          match Follow(p, entered + {candidate}, path, p.links[candidate])
          case Reached(q) => Follow(p, entered, q, rest)
          case Escaped => Escaped
          case Caught(l, left) => Caught(l, left + [rest])
  }

  // Its text

  /** Text that goes on after a doubled slash is absolute, and `join` drops what stands before it. */
  predicate Rooted(names: seq<string>) {
    |names| > 1 && names[0] == ""
  }

  function AllNames(left: seq<seq<string>>): seq<string> {
    if left == [] then [] else left[0] + AllNames(left[1..])
  }

  /** The system's own resolution follows more than `limit` links. */
  predicate TooManyLinks(p: Payload, w: Walk, limit: nat)
    requires |w.used| <= limit
    decreases limit - |w.used|, |w.pending|
  {
    !Blocked(p, w)
    && var s := Step(p, w);
       s.On? && (|s.walk.used| > limit || TooManyLinks(p, s.walk, limit))
  }

  ghost predicate FollowsOver(p: Payload, w: Walk, limit: nat, n: nat) {
    SystemRun(p, w, n).On? && |SystemRun(p, w, n).walk.used| > limit
  }

  lemma {:induction false} TooManyFollows(p: Payload, w: Walk, limit: nat) returns (n: nat)
    requires |w.used| <= limit && TooManyLinks(p, w, limit)
    ensures FollowsOver(p, w, limit, n)
    decreases limit - |w.used|, |w.pending|
  {
    var next := Step(p, w).walk;
    if |next.used| > limit {
      n := 1;
      assert SystemRun(p, next, 0) == On(next);
    } else {
      n := TooManyFollows(p, next, limit);
      n := n + 1;
    }
  }

  lemma {:induction false} FollowsTooMany(p: Payload, w: Walk, limit: nat, n: nat)
    requires |w.used| <= limit && FollowsOver(p, w, limit, n)
    ensures TooManyLinks(p, w, limit)
    decreases n
  {
    var next := Step(p, w).walk;
    if |next.used| <= limit {
      FollowsTooMany(p, next, limit, n - 1);
    }
  }

  lemma {:induction false} TooManyLinksExactly(p: Payload, w: Walk, limit: nat)
    requires |w.used| <= limit
    ensures TooManyLinks(p, w, limit) <==> exists n: nat :: FollowsOver(p, w, limit, n)
  {
    if TooManyLinks(p, w, limit) {
      var n := TooManyFollows(p, w, limit);
    }
    if n: nat :| FollowsOver(p, w, limit, n) {
      FollowsTooMany(p, w, limit, n);
    }
  }

  /** Where a path leads; `Loop` where the system is asked and follows too many links. */
  datatype Resolution = At(path: Path) | Outside | Loop

  /** The link's path and the names left, put in normal form as text; then the system is asked for that path. */
  function TextOf(p: Payload, link: Path, left: seq<seq<string>>, limit: nat): Resolution {
    var q := Normalized(link + AllNames(left), []);
    if (exists names | names in left :: Rooted(names)) || (q != [] && q[0] == "..") then Outside
    else if TooManyLinks(p, Walk([], q, []), limit) then Loop
    else At(q)
  }

  function AnswerOf(p: Payload, o: Ending, limit: nat): Resolution {
    match o
    case Reached(q) => At(q)
    case Escaped => Outside
    case Caught(l, left) => TextOf(p, l, left, limit)
  }

  /** What `Path.resolve` answers up to Python 3.12, where the system follows `limit` links and no more. */
  function Answer(p: Payload, names: seq<string>, limit: nat): Resolution {
    AnswerOf(p, Follow(p, {}, [], names), limit)
  }

  // The recursion and the run

  /** The link is being resolved: its own run stands at `path`, with `names` and maybe more left. */
  ghost predicate IsIn(p: Payload, l: Path, path: Path, names: seq<string>) {
    && l in p.links && l != [] && Plain(p, Parent(l))
    && exists behind :: GetsWith(p, From(p, l), path, names, behind)
  }

  ghost predicate AllIn(p: Payload, entered: set<Path>, path: Path, names: seq<string>) {
    forall l | l in entered :: IsIn(p, l, path, names)
  }

  /** A step does not depend on what is behind. */
  lemma StepWith(p: Payload, path: Path, names: seq<string>, behind: seq<string>)
    requires names != [] && Step(p, Walk(path, names, [])).On?
    ensures var s, t := Step(p, Walk(path, names, [])).walk, Step(p, Walk(path, names + behind, []));
      t.On? && t.walk.resolved == s.resolved && t.walk.pending == s.pending + behind
  {
    assert (names + behind)[1..] == names[1..] + behind;
    var candidate := path + [names[0]];
    if candidate in p.links {
      assert p.links[candidate] + (names[1..] + behind) == (p.links[candidate] + names[1..]) + behind;
    }
  }

  lemma GetsStep(p: Payload, v: Walk, path: Path, names: seq<string>, behind: seq<string>)
    requires GetsWith(p, v, path, names, behind) && names != [] && Step(p, Walk(path, names, [])).On?
    ensures var s := Step(p, Walk(path, names, [])).walk;
      GetsWith(p, v, s.resolved, s.pending, behind)
  {
    StepWith(p, path, names, behind);
    GetsNext(p, v, path, names + behind);
  }

  lemma AllInStep(p: Payload, entered: set<Path>, path: Path, names: seq<string>)
    requires AllIn(p, entered, path, names) && names != [] && Step(p, Walk(path, names, [])).On?
    ensures var s := Step(p, Walk(path, names, [])).walk;
      AllIn(p, entered, s.resolved, s.pending)
  {
    forall l | l in entered
      ensures var s := Step(p, Walk(path, names, [])).walk;
        IsIn(p, l, s.resolved, s.pending)
    {
      var behind :| GetsWith(p, From(p, l), path, names, behind);
      GetsStep(p, From(p, l), path, names, behind);
    }
  }

  /** The links entered so far, and the one entered now. */
  lemma AllInLink(p: Payload, entered: set<Path>, l: Path, rest: seq<string>)
    requires l in p.links && l != [] && Plain(p, Parent(l)) && AllIn(p, entered, Parent(l), p.links[l] + rest)
    ensures AllIn(p, entered + {l}, Parent(l), p.links[l])
  {
    forall m | m in entered + {l}
      ensures IsIn(p, m, Parent(l), p.links[l])
    {
      if m in entered {
        var behind :| GetsWith(p, From(p, m), Parent(l), p.links[l] + rest, behind);
        assert (p.links[l] + rest) + behind == p.links[l] + (rest + behind);
        assert GetsWith(p, From(p, m), Parent(l), p.links[l], rest + behind);
      } else {
        assert p.links[l] + [] == p.links[l];
        assert GetsIn(p, From(p, l), Parent(l), p.links[l], 0, []);
        assert GetsWith(p, From(p, l), Parent(l), p.links[l], []);
      }
    }
  }

  /** What an outcome says of a run that stands at the names, with `behind` them others left. */
  ghost predicate Tells(p: Payload, v: Walk, behind: seq<string>, o: Ending) {
    match o
    case Reached(q) => Gets(p, v, q, behind) && Plain(p, q)
    case Escaped => NeverArrives(p, v)
    case Caught(l, _) => NeverArrives(p, v) && ReEnters(p, l)
  }

  /** A run that stands at the recursion's names gets to what the recursion reaches, or never arrives. */
  lemma {:induction false} FollowTells(p: Payload, v: Walk, entered: set<Path>, path: Path, names: seq<string>,
                                       behind: seq<string>)
    requires Plain(p, path) && AllIn(p, entered, path, names) && GetsWith(p, v, path, names, behind)
    ensures Tells(p, v, behind, Follow(p, entered, path, names))
    decreases p.links.Keys - entered, |names|, 1
  {
    if names == [] {
      assert [] + behind == behind;
    } else if Step(p, Walk(path, names, [])).Climbed? {
      assert names + behind == [".."] + (names[1..] + behind);
      ClimbStep(p, v, names[1..] + behind);
    } else {
      var s := Step(p, Walk(path, names, [])).walk;
      if s.used != [] {
        FollowLinkTells(p, v, entered, path, names, behind);
      } else {
        StepKeepsPlain(p, Walk(path, names, []));
        GetsStep(p, v, path, names, behind);
        AllInStep(p, entered, path, names);
        FollowTells(p, v, entered, s.resolved, s.pending, behind);
      }
    }
  }

  lemma {:induction false} FollowLinkTells(p: Payload, v: Walk, entered: set<Path>, path: Path, names: seq<string>,
                                           behind: seq<string>)
    requires Plain(p, path) && AllIn(p, entered, path, names) && GetsWith(p, v, path, names, behind)
    requires names != [] && !Skipped(names[0]) && names[0] != ".." && path + [names[0]] in p.links
    ensures Tells(p, v, behind, Follow(p, entered, path, names))
    decreases p.links.Keys - entered, |names|, 0
  {
    var l, rest := path + [names[0]], names[1..];
    assert Parent(l) == path;
    GetsStep(p, v, path, names, behind);
    assert (p.links[l] + rest) + behind == p.links[l] + (rest + behind);
    if l in entered {
      CaughtNever(p, v, path, names, behind);
    } else {
      AllInStep(p, entered, path, names);
      AllInLink(p, entered, l, rest);
      assert l in p.links.Keys - entered;
      var inner := Follow(p, entered + {l}, path, p.links[l]);
      FollowTells(p, v, entered + {l}, path, p.links[l], rest + behind);
      if inner.Reached? {
        forall m | m in entered
          ensures IsIn(p, m, inner.path, rest)
        {
          var more :| GetsWith(p, From(p, m), path, p.links[l] + rest, more);
          assert (p.links[l] + rest) + more == p.links[l] + (rest + more);
          FollowTells(p, From(p, m), entered + {l}, path, p.links[l], rest + more);
          assert GetsWith(p, From(p, m), inner.path, rest, more);
        }
        FollowTells(p, v, entered, inner.path, rest, behind);
      }
    }
  }

  lemma CaughtNever(p: Payload, v: Walk, path: Path, names: seq<string>, behind: seq<string>)
    requires names != [] && !Skipped(names[0]) && names[0] != ".." && GetsWith(p, v, path, names, behind)
    requires IsIn(p, path + [names[0]], path, names)
    ensures NeverArrives(p, v) && ReEnters(p, path + [names[0]])
  {
    var l, rest := path + [names[0]], names[1..];
    var more :| GetsWith(p, From(p, l), path, names, more);
    assert Parent(l) == path && names + more == [names[0]] + (rest + more);
    assert BackAt(p, l, rest + more);
    ReEnteredNever(p, l);
    GetsStep(p, v, path, names, behind);
    assert (p.links[l] + rest) + behind == p.links[l] + (rest + behind);
    NeverThrough(p, v, l, rest + behind);
  }

  /** The recursion reaches exactly what the names lead to, and where it is caught a link leads back into itself. */
  lemma {:induction false} FollowArrives(p: Payload, names: seq<string>)
    ensures var o := Follow(p, {}, [], names);
      && (forall q :: o == Reached(q) <==> ArrivesAt(p, names, q))
      && (o.Caught? ==> ReEnters(p, o.link))
  {
    var w := Walk([], names, []);
    assert names + [] == names;
    assert GetsIn(p, w, [], names, 0, []);
    FollowTells(p, w, {}, [], names, []);
    var o := Follow(p, {}, [], names);
    if o.Reached? {
      ArrivesOnce(p, names, o.path);
    }
  }

  // Links without ".." in their text

  predicate NoDots(p: Payload) {
    forall l | l in p.links :: ".." !in p.links[l]
  }

  lemma {:induction false} AllNamesNext(left: seq<seq<string>>, rest: seq<string>)
    ensures AllNames(left + [rest]) == AllNames(left) + rest
    decreases |left|
  {
    if left == [] {
      assert [rest][1..] == [] && [] + rest == rest && rest + [] == rest;
      assert left + [rest] == [rest];
    } else {
      assert (left + [rest])[1..] == left[1..] + [rest];
      AllNamesNext(left[1..], rest);
      assert left[0] + (AllNames(left[1..]) + rest) == (left[0] + AllNames(left[1..])) + rest;
    }
  }

  lemma {:induction false} FollowKeepsNoDots(p: Payload, entered: set<Path>, path: Path, names: seq<string>)
    requires NoDots(p) && ".." !in names
    ensures var o := Follow(p, entered, path, names);
      !o.Escaped? && (o.Caught? ==> ".." !in AllNames(o.left))
    decreases p.links.Keys - entered, |names|
  {
    if names != [] {
      var part, rest := names[0], names[1..];
      var candidate := path + [part];
      if Skipped(part) {
        FollowKeepsNoDots(p, entered, path, rest);
      } else if candidate !in p.links {
        FollowKeepsNoDots(p, entered, candidate, rest);
      } else if candidate in entered {
        AllNamesNext([], rest);
        assert [] + [rest] == [rest] && [] + rest == rest;
      } else {
        assert candidate in p.links.Keys - entered;
        FollowKeepsNoDots(p, entered + {candidate}, path, p.links[candidate]);
        match Follow(p, entered + {candidate}, path, p.links[candidate])
        case Reached(q) => FollowKeepsNoDots(p, entered, q, rest);
        case Caught(_, left) => AllNamesNext(left, rest);
      }
    }
  }

  /** A text without ".." in normal form: the names, one after the other. */
  lemma {:induction false} NormalNames(parts: seq<string>, done: seq<string>)
    requires ".." !in parts
    ensures var q := Normalized(parts, done);
      done <= q && Names(q[|done|..])
    ensures Names(parts) ==> Normalized(parts, done) == done + parts
    decreases |parts|
  {
    if parts == [] {
      assert done + parts == done;
    } else {
      var part, rest := parts[0], parts[1..];
      if Skipped(part) {
        NormalNames(rest, done);
      } else {
        NormalNames(rest, done + [part]);
        var q := Normalized(rest, done + [part]);
        assert q[|done|..] == [part] + q[|done| + 1..];
        assert (done + [part]) + rest == done + parts;
      }
    }
  }

  lemma {:induction false} NormalJoins(a: seq<string>, b: seq<string>, done: seq<string>)
    requires Names(a)
    ensures Normalized(a + b, done) == Normalized(b, done + a)
    decreases |a|
  {
    if a == [] {
      assert a + b == b && done + a == done;
    } else {
      assert (a + b)[1..] == a[1..] + b && (done + [a[0]]) + a[1..] == done + a;
      NormalJoins(a[1..], b, done + [a[0]]);
    }
  }

  lemma {:induction false} NeverShorter(p: Payload, w: Walk, k: nat)
    requires NoDots(p) && ".." !in w.pending && Run(p, w, k).On?
    ensures |Run(p, w, k).walk.resolved| >= |w.resolved|
    decreases k
  {
    if k > 0 {
      NeverShorter(p, Step(p, w).walk, k - 1);
    }
  }

  /** A run that is back where it was only followed links, and the system follows them too. */
  lemma {:induction false} Along(p: Payload, w: Walk, k: nat, more: seq<string>, used: seq<Path>, limit: nat)
      returns (v: seq<Path>)
    requires NoDots(p) && ".." !in w.pending
    requires Run(p, w, k).On? && Run(p, w, k).walk.resolved == w.resolved
    requires |used| <= limit && !TooManyLinks(p, Walk(w.resolved, w.pending + more, used), limit)
    ensures |used| <= |v| <= limit
    ensures !TooManyLinks(p, Walk(w.resolved, Run(p, w, k).walk.pending + more, v), limit)
    decreases k
  {
    if k == 0 {
      v := used;
    } else {
      var next, long := Step(p, w).walk, Walk(w.resolved, w.pending + more, used);
      NeverShorter(p, next, k - 1);
      assert long.pending[1..] == w.pending[1..] + more;
      var after := Step(p, long).walk;
      assert after.resolved == next.resolved == w.resolved && after.pending == next.pending + more;
      v := Along(p, next, k - 1, more, after.used, limit);
    }
  }

  /** Without "..", a link that leads back into itself is followed for ever. */
  lemma {:induction false} Spins(p: Payload, l: Path, more: seq<string>, used: seq<Path>, limit: nat)
    requires NoDots(p) && ReEnters(p, l) && |used| <= limit
    ensures TooManyLinks(p, Walk(Parent(l), p.links[l] + more, used), limit)
    decreases limit - |used|, 1
  {
    if !TooManyLinks(p, Walk(Parent(l), p.links[l] + more, used), limit) {
      var part := l[|l| - 1];
      var above :| BackAt(p, l, above);
      var k: nat, u :| GetsIn(p, From(p, l), Parent(l), [part] + above, k, u);
      var v := Along(p, From(p, l), k, more, used, limit);
      assert ([part] + above) + more == [part] + (above + more);
      SpinsOn(p, l, above + more, v, limit);
    }
  }

  lemma {:induction false} SpinsOn(p: Payload, l: Path, more: seq<string>, used: seq<Path>, limit: nat)
    requires NoDots(p) && ReEnters(p, l) && |used| <= limit
    ensures TooManyLinks(p, Walk(Parent(l), [l[|l| - 1]] + more, used), limit)
    decreases limit - |used|, 0
  {
    var w := Walk(Parent(l), [l[|l| - 1]] + more, used);
    assert Parent(l) + [l[|l| - 1]] == l && w.pending[1..] == more;
    assert Step(p, w).walk == Walk(Parent(l), p.links[l] + more, used + [l]);
    if |used| < limit {
      Spins(p, l, more, used + [l], limit);
    }
  }

  lemma DirectoryStep(p: Payload, l: Path, k: nat, more: seq<string>)
    requires Hung(p) && l in p.links && k < |l| - 1
    ensures var w := Walk(l[..k], l[k..] + more, []);
      !Blocked(p, w) && Step(p, w) == On(Walk(l[..k + 1], l[k + 1..] + more, []))
  {
    var w := Walk(l[..k], l[k..] + more, []);
    assert w.pending[0] == l[k] && w.pending[1..] == l[k + 1..] + more && l[..k] + [l[k]] == l[..k + 1];
    assert l[..k + 1] == Parent(l)[..k + 1] && l[..k + 1] < l && l[k] in l;
  }

  /** The system gets to a link through its directories. */
  lemma {:induction false} Reaches(p: Payload, l: Path, k: nat, more: seq<string>, limit: nat)
    requires Hung(p) && l in p.links && k < |l|
    requires TooManyLinks(p, Walk(Parent(l), [l[|l| - 1]] + more, []), limit)
    ensures TooManyLinks(p, Walk(l[..k], l[k..] + more, []), limit)
    decreases |l| - k
  {
    if k == |l| - 1 {
      assert l[k..] == [l[|l| - 1]];
    } else {
      DirectoryStep(p, l, k, more);
      Reaches(p, l, k + 1, more, limit);
    }
  }

  /** The normal form of a link's path and names behind it, none of them "..". */
  lemma NormalBehind(l: Path, more: seq<string>) returns (kept: seq<string>)
    requires Names(l) && ".." !in more
    ensures Normalized(l + more, []) == l + kept
  {
    NormalJoins(l, more, []);
    NormalNames(more, l);
    assert [] + l == l;
    kept := Normalized(more, l)[|l|..];
  }

  lemma {:induction false} SpinsFromRoot(p: Payload, l: Path, more: seq<string>, limit: nat)
    requires NoDots(p) && Hung(p) && ReEnters(p, l)
    ensures TooManyLinks(p, Walk([], l + more, []), limit)
  {
    SpinsOn(p, l, more, [], limit);
    Reaches(p, l, 0, more, limit);
    assert l[..0] == [] && l[0..] == l;
  }

  /** The names lead back into a link, and their text is answered all the same. */
  predicate PassesAsText(p: Payload, names: seq<string>, limit: nat) {
    var o := Follow(p, {}, [], names);
    o.Caught? && TextOf(p, o.link, o.left, limit).At?
  }

  /** The link ends inside, or leads back into a link with names left that pass as text. */
  ghost predicate Passes(p: Payload, l: Path, limit: nat) {
    Inside(p, l) || PassesAsText(p, l, limit)
  }

  /** Names are answered with a place exactly when they lead to one, which then is the answer, or pass as text. */
  lemma AnsweredExactly(p: Payload, names: seq<string>, limit: nat)
    ensures forall q | ArrivesAt(p, names, q) :: Answer(p, names, limit) == At(q) && !PassesAsText(p, names, limit)
    ensures Answer(p, names, limit).At? <==> (exists q :: ArrivesAt(p, names, q)) || PassesAsText(p, names, limit)
  {
    FollowArrives(p, names);
  }

  /** Without ".." in the text of any link, nothing passes that leads back into a link. */
  lemma NoDotsNoText(p: Payload, names: seq<string>, limit: nat)
    requires NoDots(p) && Hung(p) && ".." !in names
    ensures !PassesAsText(p, names, limit)
  {
    var o := Follow(p, {}, [], names);
    if o.Caught? {
      FollowArrives(p, names);
      FollowKeepsNoDots(p, {}, [], names);
      var kept := NormalBehind(o.link, AllNames(o.left));
      SpinsFromRoot(p, o.link, kept, limit);
    }
  }

  /** a -> a/../b is caught at once, with ../b left. */
  lemma {:induction false} CaughtAtOnce(p: Payload)
    requires p.links == map[["a"] := ["a", "..", "b"]]
    ensures Follow(p, {}, [], ["a"]) == Caught(["a"], [["..", "b"], []])
    ensures AllNames([["..", "b"], []]) == ["..", "b"]
  {
    var a, target := ["a"], ["a", "..", "b"];
    assert [] + a == a && a[1..] == [] && target[1..] == ["..", "b"];
    assert Follow(p, {} + {a}, [], target) == Caught(a, [["..", "b"]]);
    assert [["..", "b"], []][1..] == [[]] && ["..", "b"] + AllNames([[]]) == ["..", "b"];
  }

  lemma TextIsB()
    ensures Normalized(["a"] + ["..", "b"], []) == ["b"] && !ClimbsFrom(0, ["a", "..", "b"])
  {
    assert (["a"] + ["..", "b"])[1..] == ["..", "b"] && ["..", "b"][1..] == ["b"] && ["b"][1..] == [];
    assert [] + ["a"] == ["a"] && ["a"][..0] == [] && [] + ["b"] == ["b"];
    assert ["a", "..", "b"][1..] == ["..", "b"];
  }

  lemma TextIsSafe()
    ensures SafeTarget(["a"], ["a", "..", "b"])
  {
    TextIsB();
    assert Parent(["a"]) + ["a", "..", "b"] == ["a", "..", "b"];
    SafeTargetStays(["a"], ["a", "..", "b"]);
  }

  lemma {:induction false} NoLinkAtB(p: Payload, limit: nat)
    requires ["b"] !in p.links
    ensures !TooManyLinks(p, Walk([], ["b"], []), limit)
  {
    assert [] + ["b"] == ["b"] && ["b"][1..] == [];
  }

  lemma {:induction false} CaughtLeadsNowhere(p: Payload, l: Path)
    requires l in p.links && |l| == 1 && Names(l) && Follow(p, {}, [], l).Caught?
    ensures !Inside(p, l)
  {
    FollowArrives(p, l);
    InsideByName(p, l);
  }

  /** With "..", a safe text that leads nowhere can pass: a -> a/../b is answered with b. */
  lemma TextPasses(p: Payload, limit: nat)
    requires p.links == map[["a"] := ["a", "..", "b"]]
    ensures SafeTarget(["a"], p.links[["a"]]) && !Inside(p, ["a"])
    ensures PassesAsText(p, ["a"], limit) && Answer(p, ["a"], limit) == At(["b"])
  {
    TextIsSafe();
    CaughtAtOnce(p);
    CaughtLeadsNowhere(p, ["a"]);
    TextIsB();
    assert ["a"][0] != ["b"][0];
    NoLinkAtB(p, limit);
  }

  /** a -> a//../b is caught with /../b left. */
  lemma {:induction false} CaughtBehindSlash(p: Payload)
    requires p.links == map[["a"] := ["a", "", "..", "b"]]
    ensures Follow(p, {}, [], ["a"]) == Caught(["a"], [["", "..", "b"], []])
  {
    var a, target := ["a"], ["a", "", "..", "b"];
    assert [] + a == a && a[1..] == [] && target[1..] == ["", "..", "b"];
    assert Follow(p, {} + {a}, [], target) == Caught(a, [["", "..", "b"]]);
  }

  /** A slash more, and it no longer passes: the text left is absolute, which leads outside. */
  lemma DoubledSlashRefused(p: Payload, limit: nat)
    requires p.links == map[["a"] := ["a", "", "..", "b"]]
    ensures Answer(p, ["a"], limit) == Outside && !PassesAsText(p, ["a"], limit)
  {
    var left: seq<seq<string>> := [["", "..", "b"], []];
    CaughtBehindSlash(p);
    assert left[0] in left && Rooted(left[0]);
    assert TextOf(p, ["a"], left, limit) == Outside;
  }
}
