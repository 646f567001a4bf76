/** _validate_symlink_graph and _safe_link_target: which links a payload may hold. */
module PayloadGraph {
  import opened Wrappers
  import opened FileTree
  import opened PayloadLinks

  const ESCAPES := "symbolic-link chain escapes the payload"
  const CYCLE := "symbolic-link cycle in payload"

  /** After `n` steps some link has been followed twice. */
  ghost predicate FollowsTwice(p: Payload, w: Walk, n: nat) {
    Run(p, w, n).On? && Repeats(Run(p, w, n).walk.used)
  }

  ghost predicate Climbs(p: Payload, w: Walk, n: nat) {
    Run(p, w, n).Climbed?
  }

  lemma RunNext(p: Payload, w: Walk, m: nat)
    requires Run(p, w, m).On?
    ensures Run(p, w, m + 1) == Step(p, Run(p, w, m).walk)
  {
    RunJoins(p, w, m, 1);
  }

  lemma ClimbedIsNotResolved(p: Payload, link: Path, m: nat)
    requires link in p.links && link != [] && Climbs(p, Start(p, link), m)
    ensures !Resolves(p, link)
  {
    var w := Start(p, link);
    forall n: nat | Arrives(p, w, n)
      ensures false
    {
      if n <= m {
        StaysStopped(p, w, n, m);
      } else {
        StaysStopped(p, w, m, n);
      }
    }
  }

  /** Over budget: the link does not resolve within it, and follows some link twice. */
  lemma {:induction false} OverBudget(p: Payload, link: Path, m: nat)
    requires link in p.links && link != [] && Run(p, Start(p, link), m).On?
    requires |Run(p, Start(p, link), m).walk.used| > |p.links|
    ensures !Resolves(p, link) && FollowsTwice(p, Start(p, link), m)
  {
    var w := Start(p, link);
    var v := Run(p, w, m).walk;
    UsedGrows(p, w, m);
    MoreThanThereAre(v.used, p.links.Keys);
    forall n: nat | Arrives(p, w, n)
      ensures |Run(p, w, n).used| > |p.links|
    {
      if n <= m {
        RunBefore(p, w, n, m);
      } else {
        RunJoins(p, w, m, n - m);
        UsedGrows(p, v, n - m);
      }
    }
  }

  /** The chain of one link, followed with an expansion budget of the number of links. */
  method Follow(p: Payload, origin: Path) returns (r: Result<(), string>)
    requires Coherent(p) && origin in p.links && origin != []
    ensures r.Ok? <==> Resolves(p, origin)
    ensures r == Err(ESCAPES) ==> exists n :: Climbs(p, Start(p, origin), n)
    ensures r.Err? && r != Err(ESCAPES) ==> r == Err(CYCLE) && exists n :: FollowsTwice(p, Start(p, origin), n)
  {
    var pending := Parent(origin) + p.links[origin];
    var resolved: Path := [];
    var expansions := 0;
    ghost var start := Start(p, origin);
    ghost var n: nat, used: seq<Path> := 0, [];
    while pending != []
      invariant Run(p, start, n) == On(Walk(resolved, pending, used))
      invariant expansions == |used| <= |p.links|
      decreases |p.links| - expansions, |pending|
    {
      RunNext(p, start, n);
      n := n + 1;
      var part := pending[0];
      pending := pending[1..];
      if Skipped(part) {
        continue;
      }
      if part == ".." {
        if resolved == [] {
          assert Climbs(p, start, n);
          ClimbedIsNotResolved(p, origin, n);
          return Err(ESCAPES);
        }
        resolved := Parent(resolved);
        continue;
      }
      var candidate := resolved + [part];
      if candidate in p.kinds && p.kinds[candidate].LinkMember? {
        expansions := expansions + 1;
        used := used + [candidate];
        if expansions > |p.links| {
          OverBudget(p, origin, n);
          return Err(CYCLE);
        }
        pending := p.links[candidate] + pending;
        continue;
      }
      resolved := candidate;
    }
    RunNext(p, start, n);
    assert Arrives(p, start, n + 1);
    r := Ok(());
  }

  /** Every link's chain is followed: accepted exactly when every link resolves inside the payload. */
  method ValidateSymlinkGraph(p: Payload) returns (r: Result<(), string>)
    requires Coherent(p)
    ensures r.Ok? <==> forall l | l in p.links :: Resolves(p, l)
  {
    var left := p.links.Keys;
    while left != {}
      invariant left <= p.links.Keys
      invariant forall l | l in p.links && l !in left :: Resolves(p, l)
      decreases left
    {
      var origin :| origin in left;
      left := left - {origin};
      var followed := Follow(p, origin);
      if followed.Err? {
        return Err(followed.error);
      }
    }
    r := Ok(());
  }

  /** A chain that ends inside the payload and follows no link twice is never refused. */
  lemma {:induction false} NoRepeatResolves(p: Payload, link: Path, n: nat)
    requires link in p.links && link != [] && Arrives(p, Start(p, link), n)
    requires !Repeats(Run(p, Start(p, link), n).used)
    ensures Resolves(p, link)
  {
    UsedGrows(p, Start(p, link), n);
    if |Run(p, Start(p, link), n).used| > |p.links| {
      MoreThanThereAre(Run(p, Start(p, link), n).used, p.links.Keys);
    }
  }

  lemma {:induction false} FollowDot(p: Payload, s: string, rest: seq<string>, used: seq<Path>)
    requires !Skipped(s) && s != ".." && [s] in p.links && p.links[[s]] == ["."]
    ensures Run(p, Walk([], [s] + rest, used), 2) == On(Walk([], rest, used + [[s]]))
  {
    assert [] + [s] == [s] && ([s] + rest)[1..] == rest && (["."] + rest)[1..] == rest;
    assert Step(p, Walk([], [s] + rest, used)) == On(Walk([], ["."] + rest, used + [[s]]));
  }

  /** A chain without a cycle that is refused: "x" leads three times through "s", and there are two links. */
  lemma {:induction false} RepeatedUseRefused(p: Payload)
    requires p.links.Keys == {["x"], ["s"]} && p.links[["x"]] == ["s", "s", "s"] && p.links[["s"]] == ["."]
    ensures Arrives(p, Start(p, ["x"]), 7) && Run(p, Start(p, ["x"]), 7).path == [] && !Resolves(p, ["x"])
  {
    var s := ["s"];
    var w := Start(p, ["x"]);
    assert w.pending == ["s"] + ["s", "s"] && ["s", "s"] == ["s"] + ["s"] && ["s"] == ["s"] + [];
    FollowDot(p, "s", ["s", "s"], []);
    FollowDot(p, "s", ["s"], [s]);
    FollowDot(p, "s", [], [s, s]);
    RunJoins(p, w, 2, 2);
    RunJoins(p, w, 4, 2);
    RunJoins(p, w, 6, 1);
    assert |p.links.Keys| == 2 by { assert p.links.Keys - {s} == {["x"]}; }
    OverBudget(p, ["x"], 6);
  }

  // The text of a single link

  /** posixpath.normpath on a relative path. */
  function Normalized(parts: seq<string>, done: seq<string>): seq<string> {
    if parts == [] then done
    else
      var part, rest := parts[0], parts[1..];
      if Skipped(part) then Normalized(rest, done)
      else if part != ".." || done == [] || done[|done| - 1] == ".." then Normalized(rest, done + [part])
      else Normalized(rest, done[..|done| - 1])
  }

  predicate SafeTarget(member: Path, target: seq<string>)
    requires member != []
  {
    && target != [] && target[0] != ""
    && var normalized := Normalized(Parent(member) + target, []);
       !(normalized != [] && normalized[0] == "..")
  }

  /** The text climbs above where it starts, reading every name as a directory. */
  predicate ClimbsFrom(depth: nat, parts: seq<string>)
    decreases |parts|
  {
    if parts == [] then false
    else if Skipped(parts[0]) then ClimbsFrom(depth, parts[1..])
    else if parts[0] == ".." then depth == 0 || ClimbsFrom(depth - 1, parts[1..])
    else ClimbsFrom(depth + 1, parts[1..])
  }

  lemma {:induction false} NormalizedKeepsClimb(parts: seq<string>, done: seq<string>)
    requires done != [] && done[0] == ".."
    ensures Normalized(parts, done) != [] && Normalized(parts, done)[0] == ".."
    decreases |parts|
  {
    if parts != [] {
      var part, rest := parts[0], parts[1..];
      if Skipped(part) {
        NormalizedKeepsClimb(rest, done);
      } else if part != ".." || done[|done| - 1] == ".." {
        NormalizedKeepsClimb(rest, done + [part]);
      } else {
        NormalizedKeepsClimb(rest, done[..|done| - 1]);
      }
    }
  }

  lemma {:induction false} NormalizedClimbs(parts: seq<string>, done: seq<string>)
    requires ".." !in done
    ensures ClimbsFrom(|done|, parts) <==> Normalized(parts, done) != [] && Normalized(parts, done)[0] == ".."
    decreases |parts|
  {
    if parts != [] {
      var part, rest := parts[0], parts[1..];
      if Skipped(part) {
        NormalizedClimbs(rest, done);
      } else if part != ".." {
        NormalizedClimbs(rest, done + [part]);
      } else if done == [] {
        NormalizedKeepsClimb(rest, [".."]);
        assert done + [part] == [".."];
      } else {
        assert ".." !in done[..|done| - 1];
        NormalizedClimbs(rest, done[..|done| - 1]);
      }
    }
  }

  /** The check on a link's text refuses exactly the texts that climb out when no other link is met. */
  lemma {:induction false} SafeTargetStays(member: Path, target: seq<string>)
    requires member != []
    ensures SafeTarget(member, target) <==>
      target != [] && target[0] != "" && !ClimbsFrom(0, Parent(member) + target)
  {
    NormalizedClimbs(Parent(member) + target, []);
  }

  /** That check alone is not enough: two safe texts can form a chain that leaves the payload. */
  lemma SafeTargetsCanClimb()
    ensures var p := Payload(map[["d", "x"] := LinkMember, ["d", "y"] := LinkMember],
                             map[["d", "x"] := ["y", ".."], ["d", "y"] := [".."]]);
      && SafeTarget(["d", "x"], p.links[["d", "x"]]) && SafeTarget(["d", "y"], p.links[["d", "y"]])
      && Climbs(p, Start(p, ["d", "x"]), 4)
  {
    var p := Payload(map[["d", "x"] := LinkMember, ["d", "y"] := LinkMember],
                     map[["d", "x"] := ["y", ".."], ["d", "y"] := [".."]]);
    var x, y: Path := ["d", "x"], ["d", "y"];
    assert x[1] != y[1];
    SafeTargetStays(x, p.links[x]);
    SafeTargetStays(y, p.links[y]);
    assert Parent(x) + p.links[x] == ["d", "y", ".."] && Parent(y) + p.links[y] == ["d", ".."];
    assert ["d", "y", ".."][1..] == ["y", ".."] && ["y", ".."][1..] == [".."];
    assert !ClimbsFrom(0, ["d", "y", ".."]) && !ClimbsFrom(0, ["d", ".."]);
    var w0, w1 := Walk([], ["d", "y", ".."], []), Walk(["d"], ["y", ".."], []);
    var w2, w3 := Walk(["d"], ["..", ".."], [y]), Walk([], [".."], [y]);
    assert ["d"] + ["y"] == y && |["d"]| == 1;
    assert Step(p, w0) == On(w1);
    assert Step(p, w1) == On(w2);
    assert Step(p, w2) == On(w3);
    assert Step(p, w3) == Climbed;
  }
}
