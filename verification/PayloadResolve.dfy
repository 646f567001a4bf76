/**
 * Path.resolve without `strict`, on the links of a payload: one loop over the
 * components, which remembers where a link led and which links it is still in.
 * It ends on every payload, cyclic ones included.
 */
module PayloadResolve {
  import opened Wrappers
  import opened FileTree
  import opened PayloadLinks
  import opened PayloadRuns
  import opened PayloadRealpath

  /** What is left to resolve: names, and after a link's target a mark that the link is resolved. */
  datatype Part = Name(name: string) | Done(link: Path)

  function Parts(names: seq<string>): (s: seq<Part>)
    ensures |s| == |names| && forall i | 0 <= i < |s| :: s[i] == Name(names[i])
  {
    seq(|names|, i requires 0 <= i < |names| => Name(names[i]))
  }

  function Head(x: Part): seq<string> {
    if x.Name? then [x.name] else []
  }

  /** The names alone. */
  function Erase(s: seq<Part>): seq<string> {
    if s == [] then [] else Head(s[0]) + Erase(s[1..])
  }

  // The stack

  lemma {:induction false} EraseCons(x: Part, s: seq<Part>)
    ensures Erase([x] + s) == Head(x) + Erase(s)
  {
    assert ([x] + s)[1..] == s;
  }

  lemma {:induction false} EraseJoins(a: seq<Part>, b: seq<Part>)
    ensures Erase(a + b) == Erase(a) + Erase(b)
    decreases |a|
  {
    if a == [] {
      assert a + b == b && Erase(a) + Erase(b) == Erase(b);
    } else {
      var x, rest := a[0], a[1..];
      assert a == [x] + rest && a + b == [x] + (rest + b);
      EraseCons(x, rest);
      EraseCons(x, rest + b);
      EraseJoins(rest, b);
      assert Head(x) + (Erase(rest) + Erase(b)) == (Head(x) + Erase(rest)) + Erase(b);
    }
  }

  lemma {:induction false} EraseParts(names: seq<string>)
    ensures Erase(Parts(names)) == names
    decreases |names|
  {
    if names != [] {
      EraseParts(names[1..]);
      assert Parts(names)[1..] == Parts(names[1..]);
    }
  }

  lemma EraseFirst(s: seq<Part>, j: nat)
    requires 0 < j <= |s|
    ensures Erase(s[..j]) == Head(s[0]) + Erase(s[1..][..j - 1])
    ensures s[0].Done? ==> Erase(s[..j]) == Erase(s[1..][..j - 1])
  {
    assert s[..j][1..] == s[1..][..j - 1];
    assert [] + Erase(s[1..][..j - 1]) == Erase(s[1..][..j - 1]);
  }

  /** A link that is being resolved: its own run stands at `path`, with the names above its mark left. */
  ghost predicate Open(p: Payload, path: Path, above: seq<string>, l: Path) {
    l in p.links && l != [] && Plain(p, Parent(l)) && Gets(p, From(p, l), path, above)
  }

  ghost predicate Marks(p: Payload, path: Path, rest: seq<Part>) {
    forall j | 0 <= j < |rest| && rest[j].Done? :: Open(p, path, Erase(rest[..j]), rest[j].link)
  }

  ghost predicate Remembers(p: Payload, rest: seq<Part>, seen: map<Path, Option<Path>>) {
    forall l | l in seen ::
      && l in p.links && l != []
      && if seen[l].None? then Done(l) in rest else LeadsTo(p, l, seen[l].value) && Plain(p, seen[l].value)
  }

  /** The loop's state stands for a state of the run from `w`. */
  ghost predicate Follows(p: Payload, w: Walk, path: Path, rest: seq<Part>, seen: map<Path, Option<Path>>) {
    Plain(p, path) && Gets(p, w, path, Erase(rest)) && Marks(p, path, rest) && Remembers(p, rest, seen)
  }

  lemma Unmarked(p: Payload, rest: seq<Part>, seen: map<Path, Option<Path>>)
    requires Remembers(p, rest, seen) && rest != [] && rest[0].Name?
    ensures Remembers(p, rest[1..], seen)
  {
    assert rest == [rest[0]] + rest[1..];
  }

  /** A name that is no link, or a dot. */
  lemma NameStep(p: Payload, w: Walk, path: Path, rest: seq<Part>, seen: map<Path, Option<Path>>, next: Path)
    requires Follows(p, w, path, rest, seen) && rest != [] && rest[0].Name?
    requires forall more :: var s := Step(p, Walk(path, [rest[0].name] + more, []));
      s.On? && s.walk.resolved == next && s.walk.pending == more
    ensures Follows(p, w, next, rest[1..], seen)
  {
    var part, tail := rest[0].name, rest[1..];
    Unmarked(p, rest, seen);
    GetsNext(p, w, path, [part] + Erase(tail));
    StepKeepsPlain(p, Walk(path, [part] + [], []));
    forall j | 0 <= j < |tail| && tail[j].Done?
      ensures Open(p, next, Erase(tail[..j]), tail[j].link)
    {
      assert rest[j + 1] == tail[j];
      EraseFirst(rest, j + 1);
      GetsNext(p, From(p, tail[j].link), path, [part] + Erase(tail[..j]));
    }
  }

  /** A link that was resolved before. */
  lemma CachedStep(p: Payload, w: Walk, path: Path, rest: seq<Part>, seen: map<Path, Option<Path>>)
    requires Follows(p, w, path, rest, seen) && rest != [] && rest[0].Name?
    requires !Skipped(rest[0].name) && rest[0].name != ".."
    requires path + [rest[0].name] in seen && seen[path + [rest[0].name]].Some?
    ensures Follows(p, w, seen[path + [rest[0].name]].value, rest[1..], seen)
  {
    var part, tail := rest[0].name, rest[1..];
    var q := seen[path + [part]].value;
    Unmarked(p, rest, seen);
    GetsByLink(p, w, path, part, Erase(tail), q);
    forall j | 0 <= j < |tail| && tail[j].Done?
      ensures Open(p, q, Erase(tail[..j]), tail[j].link)
    {
      assert rest[j + 1] == tail[j];
      EraseFirst(rest, j + 1);
      GetsByLink(p, From(p, tail[j].link), path, part, Erase(tail[..j]), q);
    }
  }

  /** The stack when a link is entered. */
  function Entered(target: seq<string>, l: Path, tail: seq<Part>): seq<Part> {
    Parts(target) + [Done(l)] + tail
  }

  lemma EnteredErases(target: seq<string>, l: Path, tail: seq<Part>, j: nat)
    requires |target| < j <= |target| + 1 + |tail|
    ensures Erase(Entered(target, l, tail)[..j]) == target + Erase(tail[..j - |target| - 1])
  {
    var k := j - |target| - 1;
    assert Entered(target, l, tail)[..j] == Parts(target) + ([Done(l)] + tail[..k]);
    EraseJoins(Parts(target), [Done(l)] + tail[..k]);
    EraseJoins([Done(l)], tail[..k]);
    EraseParts(target);
  }

  /** A link met for the first time. */
  lemma EnterStep(p: Payload, w: Walk, path: Path, rest: seq<Part>, seen: map<Path, Option<Path>>)
    requires Follows(p, w, path, rest, seen) && rest != [] && rest[0].Name?
    requires !Skipped(rest[0].name) && rest[0].name != ".." && path + [rest[0].name] in p.links
    ensures var l := path + [rest[0].name];
      Follows(p, w, path, Entered(p.links[l], l, rest[1..]), seen[l := None])
  {
    EnterGets(p, w, path, rest);
    EnterMarks(p, path, rest);
    EnterRemembers(p, rest, seen, path + [rest[0].name]);
  }

  lemma {:induction false} EnterGets(p: Payload, w: Walk, path: Path, rest: seq<Part>)
    requires Gets(p, w, path, Erase(rest)) && rest != [] && rest[0].Name?
    requires !Skipped(rest[0].name) && rest[0].name != ".." && path + [rest[0].name] in p.links
    ensures var l := path + [rest[0].name];
      Gets(p, w, path, Erase(Entered(p.links[l], l, rest[1..])))
  {
    var part, tail := rest[0].name, rest[1..];
    var l := path + [part];
    var deeper := Entered(p.links[l], l, tail);
    GetsNext(p, w, path, [part] + Erase(tail));
    EnteredErases(p.links[l], l, tail, |deeper|);
    assert deeper[..|deeper|] == deeper && tail[..|tail|] == tail;
  }

  lemma EnterMarks(p: Payload, path: Path, rest: seq<Part>)
    requires Plain(p, path) && Marks(p, path, rest) && rest != [] && rest[0].Name?
    requires !Skipped(rest[0].name) && rest[0].name != ".." && path + [rest[0].name] in p.links
    ensures var l := path + [rest[0].name];
      Marks(p, path, Entered(p.links[l], l, rest[1..]))
  {
    var l := path + [rest[0].name];
    var t, tail := p.links[l], rest[1..];
    var deeper := Entered(t, l, tail);
    assert Parent(l) == path;
    forall j | 0 <= j < |deeper| && deeper[j].Done?
      ensures Open(p, path, Erase(deeper[..j]), deeper[j].link)
    {
      if j == |t| {
        assert deeper[..j] == Parts(t);
        EraseParts(t);
        assert GetsIn(p, From(p, l), path, t, 0, []);
      } else {
        EnterMark(p, path, rest, j - |t|);
        EnteredErases(t, l, tail, j);
        assert deeper[j] == rest[j - |t|];
      }
    }
  }

  lemma EnterMark(p: Payload, path: Path, rest: seq<Part>, j: nat)
    requires Marks(p, path, rest) && 0 < j < |rest| && rest[j].Done? && rest[0].Name?
    requires !Skipped(rest[0].name) && rest[0].name != ".." && path + [rest[0].name] in p.links
    ensures Open(p, path, p.links[path + [rest[0].name]] + Erase(rest[1..][..j - 1]), rest[j].link)
  {
    EraseFirst(rest, j);
    GetsNext(p, From(p, rest[j].link), path, [rest[0].name] + Erase(rest[1..][..j - 1]));
  }

  lemma EnterRemembers(p: Payload, rest: seq<Part>, seen: map<Path, Option<Path>>, l: Path)
    requires Remembers(p, rest, seen) && rest != [] && rest[0].Name? && l in p.links && l != []
    ensures Remembers(p, Entered(p.links[l], l, rest[1..]), seen[l := None])
  {
    var deeper := Entered(p.links[l], l, rest[1..]);
    assert deeper[|p.links[l]|] == Done(l);
    forall m | m in seen && seen[m].None?
      ensures Done(m) in deeper
    {
      var i :| 0 <= i < |rest| && rest[i] == Done(m);
      assert deeper[|p.links[l]| + i] == rest[i];
    }
  }

  /** A link is resolved. */
  lemma DoneStep(p: Payload, w: Walk, path: Path, rest: seq<Part>, seen: map<Path, Option<Path>>)
    requires Follows(p, w, path, rest, seen) && rest != [] && rest[0].Done?
    ensures Follows(p, w, path, rest[1..], seen[rest[0].link := Some(path)])
  {
    var l, tail := rest[0].link, rest[1..];
    assert rest[..0] == [] && rest[..|rest|] == rest && tail[..|tail|] == tail;
    EraseFirst(rest, |rest|);
    assert LeadsTo(p, l, path);
    forall j | 0 <= j < |tail| && tail[j].Done?
      ensures Open(p, path, Erase(tail[..j]), tail[j].link)
    {
      assert rest[j + 1] == tail[j];
      EraseFirst(rest, j + 1);
    }
    forall m | m in seen && seen[m].None? && m != l
      ensures Done(m) in tail
    {
      var i :| 0 <= i < |rest| && rest[i] == Done(m);
      assert tail[i - 1] == rest[i];
    }
  }

  lemma OpenReEnters(p: Payload, path: Path, rest: seq<Part>, j: nat)
    requires Marks(p, path, rest) && j < |rest| && rest[0].Name? && !Skipped(rest[0].name) && rest[0].name != ".."
    requires rest[j] == Done(path + [rest[0].name])
    ensures ReEnters(p, rest[j].link)
  {
    var l, above := rest[j].link, Erase(rest[1..][..j - 1]);
    EraseFirst(rest, j);
    assert Parent(l) == path && l[|l| - 1] == rest[0].name;
    assert Open(p, path, [rest[0].name] + above, l);
    assert BackAt(p, l, above);
  }

  /** A link met again while it is being resolved: the run never arrives. */
  lemma LoopStep(p: Payload, w: Walk, path: Path, rest: seq<Part>, seen: map<Path, Option<Path>>)
    requires Follows(p, w, path, rest, seen) && rest != [] && rest[0].Name?
    requires !Skipped(rest[0].name) && rest[0].name != ".."
    requires path + [rest[0].name] in seen && seen[path + [rest[0].name]].None?
    ensures NeverArrives(p, w)
  {
    var l := path + [rest[0].name];
    var j :| 0 <= j < |rest| && rest[j] == Done(l);
    OpenReEnters(p, path, rest, j);
    ReEnteredNever(p, l);
    EraseFirst(rest, |rest|);
    assert rest[..|rest|] == rest && rest[1..][..|rest| - 1] == rest[1..];
    GetsNext(p, w, path, [rest[0].name] + Erase(rest[1..]));
    NeverThrough(p, w, l, Erase(rest[1..]));
  }

  // What is left, link by link

  /** How many names come before the next mark. */
  function Top(s: seq<Part>): (n: nat)
    ensures n <= |s| && (n < |s| ==> s[n].Done?) && forall j | 0 <= j < n :: s[j].Name?
  {
    if s == [] || s[0].Done? then 0 else 1 + Top(s[1..])
  }

  /** The names left in the link that is being resolved, then those left behind it, and so on outwards. */
  function Levels(s: seq<Part>): seq<seq<string>>
    decreases |s|, 1
  {
    [Erase(s[..Top(s)])] + Outer(s)
  }

  function Outer(s: seq<Part>): seq<seq<string>>
    decreases |s|, 0
  {
    if Top(s) == |s| then [] else Levels(s[Top(s) + 1..])
  }

  function Marked(s: seq<Part>): set<Path> {
    set j | 0 <= j < |s| && s[j].Done? :: s[j].link
  }

  /** What the recursion makes of the loop's state: each level inside the links marked around it. */
  ghost function Onward(p: Payload, path: Path, rest: seq<Part>): Ending
    decreases |rest|
  {
    var n := Top(rest);
    match Follow(p, Marked(rest), path, Erase(rest[..n]))
    case Reached(q) => if n == |rest| then Reached(q) else Onward(p, q, rest[n + 1..])
    case Escaped => Escaped
    case Caught(l, left) => Caught(l, left + Outer(rest))
  }

  lemma {:induction false} TopNext(rest: seq<Part>)
    requires rest != [] && rest[0].Name?
    ensures Top(rest) == Top(rest[1..]) + 1 && rest[Top(rest)..] == rest[1..][Top(rest[1..])..]
    ensures Erase(rest[..Top(rest)]) == [rest[0].name] + Erase(rest[1..][..Top(rest[1..])])
    ensures Marked(rest) == Marked(rest[1..]) && Outer(rest) == Outer(rest[1..])
  {
    EraseFirst(rest, Top(rest));
    forall l
      ensures l in Marked(rest) <==> l in Marked(rest[1..])
    {
      if l in Marked(rest) {
        var j :| 0 <= j < |rest| && rest[j] == Done(l);
        assert rest[1..][j - 1] == rest[j];
      }
    }
  }

  /** A step that only drops a name. */
  lemma {:induction false} NameOnward(p: Payload, path: Path, rest: seq<Part>, next: Path)
    requires rest != [] && rest[0].Name?
    requires forall names ::
      Follow(p, Marked(rest), path, [rest[0].name] + names) == Follow(p, Marked(rest), next, names)
    ensures Onward(p, path, rest) == Onward(p, next, rest[1..])
  {
    TopNext(rest);
    var n := Top(rest);
    if n < |rest| {
      assert rest[n + 1..] == rest[1..][n..];
    }
  }

  // The loop

  datatype Working = Working(path: Path, rest: seq<Part>, seen: map<Path, Option<Path>>)

  datatype Turn = More(now: Working) | Stop(answer: Resolution)

  /** The links that are marked are links, and were seen. */
  ghost predicate Bounded(p: Payload, s: Working) {
    && s.seen.Keys <= p.links.Keys
    && forall j | 0 <= j < |s.rest| && s.rest[j].Done? :: s.rest[j].link in s.seen
  }

  /**
   * How the interpreter treats a link it is already in: it answers with the text,
   * and raises where the system then follows more than `limit` links; or it takes
   * the link for a plain name.
   */
  datatype Python = Until312(limit: nat) | Since313

  /** One component. */
  function TurnOf(p: Payload, s: Working, python: Python): Turn
    requires s.rest != []
  {
    var part, rest := s.rest[0], s.rest[1..];
    if part.Done? then More(Working(s.path, rest, s.seen[part.link := Some(s.path)]))
    else if Skipped(part.name) then More(s.(rest := rest))
    else if part.name == ".." then
      if s.path == [] then Stop(Outside) else More(Working(Parent(s.path), rest, s.seen))
    else
      var candidate := s.path + [part.name];
      if candidate !in p.links then More(Working(candidate, rest, s.seen))
      else if candidate !in s.seen then
        More(Working(s.path, Entered(p.links[candidate], candidate, rest), s.seen[candidate := None]))
      else if s.seen[candidate].Some? then More(Working(s.seen[candidate].value, rest, s.seen))
      else if python.Until312? then Stop(TextOf(p, candidate, Levels(rest), python.limit))
      else More(Working(candidate, rest, s.seen))
  }

  /** Each turn enters one more link, or leaves one part less. */
  lemma TurnShrinks(p: Payload, s: Working, python: Python)
    requires s.rest != [] && Bounded(p, s) && TurnOf(p, s, python).More?
    ensures var t := TurnOf(p, s, python).now;
      && Bounded(p, t)
      && (|| p.links.Keys - t.seen.Keys < p.links.Keys - s.seen.Keys
          || (t.seen.Keys == s.seen.Keys && |t.rest| < |s.rest|))
  {
    var t := TurnOf(p, s, python).now;
    if !s.rest[0].Done? && t.seen.Keys != s.seen.Keys {
      var l := s.path + [s.rest[0].name];
      assert l in p.links.Keys - s.seen.Keys && l !in p.links.Keys - t.seen.Keys;
      forall j | 0 <= j < |t.rest| && t.rest[j].Done?
        ensures t.rest[j].link in t.seen
      {
        assert j > |p.links[l]| ==> t.rest[j] == s.rest[j - |p.links[l]|];
      }
    }
  }

  ghost predicate FollowsAt(p: Payload, w: Walk, s: Working) {
    Follows(p, w, s.path, s.rest, s.seen)
  }

  /** Each turn keeps to the run, or the run never arrives. */
  lemma TurnFollows(p: Payload, w: Walk, s: Working, python: Python)
    requires s.rest != [] && FollowsAt(p, w, s)
    ensures var t := TurnOf(p, s, python);
      if t.Stop? then NeverArrives(p, w) else FollowsAt(p, w, t.now) || (python.Since313? && NeverArrives(p, w))
  {
    var part := s.rest[0];
    if part.Done? {
      DoneStep(p, w, s.path, s.rest, s.seen);
    } else if Skipped(part.name) {
      NameStep(p, w, s.path, s.rest, s.seen, s.path);
    } else if part.name == ".." {
      if s.path == [] {
        ClimbStep(p, w, Erase(s.rest[1..]));
      } else {
        NameStep(p, w, s.path, s.rest, s.seen, Parent(s.path));
      }
    } else {
      var candidate := s.path + [part.name];
      if candidate !in p.links {
        NameStep(p, w, s.path, s.rest, s.seen, candidate);
      } else if candidate !in s.seen {
        EnterStep(p, w, s.path, s.rest, s.seen);
      } else if s.seen[candidate].Some? {
        CachedStep(p, w, s.path, s.rest, s.seen);
      } else {
        LoopStep(p, w, s.path, s.rest, s.seen);
      }
    }
  }

  // No ".."

  ghost predicate Dotless(rest: seq<Part>) {
    Name("..") !in rest
  }

  lemma EnteredDotless(target: seq<string>, l: Path, tail: seq<Part>)
    requires ".." !in target && Dotless(tail)
    ensures Dotless(Entered(target, l, tail))
  {
    var deeper := Entered(target, l, tail);
    forall j | 0 <= j < |deeper|
      ensures deeper[j] != Name("..")
    {
      assert j < |target| ==> deeper[j] == Name(target[j]);
      assert j > |target| ==> deeper[j] == tail[j - |target| - 1];
    }
  }

  /** Without "..", and with links taken for names, there is nothing to stop at. */
  lemma DotlessTurn(p: Payload, s: Working)
    requires s.rest != [] && NoDots(p) && Dotless(s.rest)
    ensures var t := TurnOf(p, s, Since313);
      t.More? && Dotless(t.now.rest)
  {
    var l := s.path + Head(s.rest[0]);
    if l in p.links {
      EnteredDotless(p.links[l], l, s.rest[1..]);
    }
  }

  // The loop and the recursion

  /** The links around a state of the loop are those the recursion is in. */
  lemma MarkedAllIn(p: Payload, path: Path, rest: seq<Part>)
    requires Marks(p, path, rest) && rest != [] && rest[0].Name?
    ensures AllIn(p, Marked(rest), path, [rest[0].name])
  {
    forall l | l in Marked(rest)
      ensures IsIn(p, l, path, [rest[0].name])
    {
      var j :| 0 <= j < |rest| && rest[j] == Done(l);
      EraseFirst(rest, j);
      assert Open(p, path, Erase(rest[..j]), l);
      assert GetsWith(p, From(p, l), path, [rest[0].name], Erase(rest[1..][..j - 1]));
    }
  }

  /** A link that led to `q` is not one of those around it, and the recursion into it reaches `q`. */
  lemma {:induction false} CachedFollow(p: Payload, path: Path, rest: seq<Part>, q: Path)
    requires Plain(p, path) && Marks(p, path, rest) && rest != [] && rest[0].Name?
    requires !Skipped(rest[0].name) && rest[0].name != ".."
    requires path + [rest[0].name] in p.links && LeadsTo(p, path + [rest[0].name], q)
    ensures var l := path + [rest[0].name];
      l !in Marked(rest) && Follow(p, Marked(rest) + {l}, path, p.links[l]) == Reached(q)
  {
    var l, part := path + [rest[0].name], rest[0].name;
    var w, entered := From(p, l), Marked(rest);
    assert Parent(l) == path && [part][1..] == [] && p.links[l] + [] == p.links[l];
    GetsNext(p, w, q, []);
    var n: nat :| Arrives(p, w, n) && Run(p, w, n).path == q;
    if l in entered {
      var j :| 0 <= j < |rest| && rest[j] == Done(l);
      OpenReEnters(p, path, rest, j);
      ReEnteredNever(p, l);
    }
    MarkedAllIn(p, path, rest);
    AllInStep(p, entered, path, [part]);
    AllInLink(p, entered, l, []);
    assert GetsIn(p, w, path, p.links[l], 0, []);
    FollowTells(p, w, entered + {l}, path, p.links[l], []);
    GetsOnce(p, w, q, n, Follow(p, entered + {l}, path, p.links[l]).path);
  }

  /** What becomes of the rest when the recursion into a link at its head has ended with `o`. */
  ghost function Behind(p: Payload, o: Ending, tail: seq<Part>): Ending {
    match o
    case Reached(q) => Onward(p, q, tail)
    case Escaped => Escaped
    case Caught(l, left) => Caught(l, left + Levels(tail))
  }

  /** A link is entered. */
  lemma {:induction false} EnterOnward(p: Payload, path: Path, rest: seq<Part>)
    requires rest != [] && rest[0].Name? && !Skipped(rest[0].name) && rest[0].name != ".."
    requires path + [rest[0].name] in p.links && path + [rest[0].name] !in Marked(rest)
    ensures var l := path + [rest[0].name];
      Onward(p, path, Entered(p.links[l], l, rest[1..])) == Onward(p, path, rest)
  {
    var l := path + [rest[0].name];
    EnteredTop(p.links[l], l, rest[1..]);
    TopNext(rest);
    ThroughLink(p, path, rest);
  }

  function AfterLink(p: Payload, entered: set<Path>, o: Ending, names: seq<string>): Ending {
    match o
    case Reached(q) => Follow(p, entered, q, names)
    case Escaped => Escaped
    case Caught(l, left) => Caught(l, left + [names])
  }

  lemma {:induction false} FollowInto(p: Payload, entered: set<Path>, path: Path, part: string, names: seq<string>)
    requires !Skipped(part) && part != ".." && path + [part] in p.links && path + [part] !in entered
    ensures var l := path + [part];
      Follow(p, entered, path, [part] + names) ==
      AfterLink(p, entered, Follow(p, entered + {l}, path, p.links[l]), names)
  {
    assert ([part] + names)[1..] == names;
  }

  /** The recursion into a link, seen from the level it is met on. */
  lemma {:induction false} ThroughLink(p: Payload, path: Path, rest: seq<Part>)
    requires rest != [] && rest[0].Name? && !Skipped(rest[0].name) && rest[0].name != ".."
    requires path + [rest[0].name] in p.links && path + [rest[0].name] !in Marked(rest)
    ensures var l := path + [rest[0].name];
      Onward(p, path, rest) == Behind(p, Follow(p, Marked(rest) + {l}, path, p.links[l]), rest[1..])
  {
    var l, tail := path + [rest[0].name], rest[1..];
    var inner, names := Follow(p, Marked(rest) + {l}, path, p.links[l]), Erase(tail[..Top(tail)]);
    TopNext(rest);
    FollowInto(p, Marked(rest), path, rest[0].name, names);
    if inner.Caught? {
      Regroup(inner.left, names, Outer(tail));
    }
  }

  lemma Regroup(left: seq<seq<string>>, level: seq<string>, more: seq<seq<string>>)
    ensures left + ([level] + more) == (left + [level]) + more
  {
  }

  /** A link met again inside itself. */
  lemma {:induction false} CaughtOnward(p: Payload, path: Path, rest: seq<Part>)
    requires rest != [] && rest[0].Name? && !Skipped(rest[0].name) && rest[0].name != ".."
    requires path + [rest[0].name] in p.links && path + [rest[0].name] in Marked(rest)
    ensures Onward(p, path, rest) == Caught(path + [rest[0].name], Levels(rest[1..]))
  {
    var names := Erase(rest[1..][..Top(rest[1..])]);
    TopNext(rest);
    assert ([rest[0].name] + names)[1..] == names;
  }

  lemma EnteredTop(t: seq<string>, l: Path, tail: seq<Part>)
    ensures var deeper := Entered(t, l, tail);
      && Top(deeper) == |t| && Erase(deeper[..|t|]) == t && deeper[|t| + 1..] == tail
      && Marked(deeper) == Marked(tail) + {l}
  {
    var deeper := Entered(t, l, tail);
    assert deeper[|t|] == Done(l) && deeper[..|t|] == Parts(t);
    EraseParts(t);
    forall m
      ensures m in Marked(deeper) <==> m in Marked(tail) + {l}
    {
      if m in Marked(deeper) {
        var j :| 0 <= j < |deeper| && deeper[j] == Done(m);
        assert j == |t| || tail[j - |t| - 1] == deeper[j];
      }
      if m in Marked(tail) {
        var j :| 0 <= j < |tail| && tail[j] == Done(m);
        assert deeper[j + |t| + 1] == tail[j];
      }
    }
  }

  /** A turn at a name that is no link. */
  lemma NameTurn(p: Payload, s: Working, limit: nat)
    requires s.rest != [] && s.rest[0].Name?
    requires Skipped(s.rest[0].name) || s.rest[0].name == ".." || s.path + [s.rest[0].name] !in p.links
    ensures SameOnward(p, s, limit)
  {
    var part := s.rest[0].name;
    forall names
      ensures ([part] + names)[1..] == names
    {
    }
    if Skipped(part) {
      NameOnward(p, s.path, s.rest, s.path);
    } else if part != ".." {
      NameOnward(p, s.path, s.rest, s.path + [part]);
    } else if s.path != [] {
      NameOnward(p, s.path, s.rest, Parent(s.path));
    } else {
      TopNext(s.rest);
    }
  }

  /** A turn at a link. */
  lemma LinkTurn(p: Payload, w: Walk, s: Working, limit: nat)
    requires s.rest != [] && Bounded(p, s) && FollowsAt(p, w, s) && s.rest[0].Name?
    requires !Skipped(s.rest[0].name) && s.rest[0].name != ".." && s.path + [s.rest[0].name] in p.links
    ensures SameOnward(p, s, limit)
  {
    var l := s.path + [s.rest[0].name];
    if l !in s.seen {
      EnterOnward(p, s.path, s.rest);
    } else if s.seen[l].Some? {
      CachedFollow(p, s.path, s.rest, s.seen[l].value);
      ThroughLink(p, s.path, s.rest);
    } else {
      assert l in Marked(s.rest);
      CaughtOnward(p, s.path, s.rest);
    }
  }

  /** The turn leaves what the recursion makes of the state as it is, or stops with its answer. */
  ghost predicate SameOnward(p: Payload, s: Working, limit: nat)
    requires s.rest != []
  {
    var t := TurnOf(p, s, Until312(limit));
    if t.Stop? then t.answer == AnswerOf(p, Onward(p, s.path, s.rest), limit)
    else Onward(p, t.now.path, t.now.rest) == Onward(p, s.path, s.rest)
  }

  /** Each turn of the loop, with its memory, is a step of the recursion without. */
  lemma TurnOnward(p: Payload, w: Walk, s: Working, limit: nat)
    requires s.rest != [] && Bounded(p, s) && FollowsAt(p, w, s)
    ensures SameOnward(p, s, limit)
  {
    if s.rest[0].Done? {
      assert s.rest[..0] == [] && s.rest[0 + 1..] == s.rest[1..];
    } else if !Skipped(s.rest[0].name) && s.rest[0].name != ".." && s.path + [s.rest[0].name] in p.links {
      LinkTurn(p, w, s, limit);
    } else {
      NameTurn(p, s, limit);
    }
  }

  /**
   * Where `names` leads.  Names that arrive are answered with the place they arrive
   * at.  Up to Python 3.12 the answer is that of the recursion without memory; later
   * ones answer every name with a place where no link has ".." in its text.
   */
  method Resolve(p: Payload, names: seq<string>, python: Python) returns (r: Resolution)
    ensures forall q | ArrivesAt(p, names, q) :: r == At(q)
    ensures python.Until312? ==> r == Answer(p, names, python.limit)
    ensures python.Since313? && NoDots(p) && ".." !in names ==> r.At?
  {
    var s := Working([], Parts(names), map[]);
    ghost var w := Walk([], names, []);
    Begins(p, names);
    while s.rest != []
      invariant Bounded(p, s)
      invariant FollowsAt(p, w, s) || (python.Since313? && NeverArrives(p, w))
      invariant python.Until312? ==> Onward(p, s.path, s.rest) == Follow(p, {}, [], names)
      invariant python.Since313? && NoDots(p) && ".." !in names ==> Dotless(s.rest)
      decreases p.links.Keys - s.seen.Keys, |s.rest|
    {
      var t := TurnOf(p, s, python);
      if FollowsAt(p, w, s) {
        TurnFollows(p, w, s, python);
      }
      if python.Until312? {
        TurnOnward(p, w, s, python.limit);
      } else if NoDots(p) && ".." !in names {
        DotlessTurn(p, s);
      }
      if t.Stop? {
        return t.answer;
      }
      TurnShrinks(p, s, python);
      s := t.now;
    }
    if FollowsAt(p, w, s) {
      ArrivesOnce(p, names, s.path);
    }
    return At(s.path);
  }

  lemma {:induction false} Begins(p: Payload, names: seq<string>)
    ensures Follows(p, Walk([], names, []), [], Parts(names), map[])
    ensures Onward(p, [], Parts(names)) == Follow(p, {}, [], names)
  {
    EraseParts(names);
    assert Parts(names)[..|names|] == Parts(names) && Marked(Parts(names)) == {};
    var o := Follow(p, {}, [], names);
    if o.Caught? {
      assert o.left + [] == o.left;
    }
    assert GetsIn(p, Walk([], names, []), [], names, 0, []);
  }

  /**
   * The check of one link: it passes the links that end inside, and up to Python 3.12
   * those that pass as text; later, all those of a payload without ".." in a link's text.
   */
  method LinkInside(p: Payload, l: Path, python: Python) returns (ok: bool)
    requires l in p.links && l != [] && Names(l) && Plain(p, Parent(l))
    ensures Inside(p, l) ==> ok
    ensures python.Until312? ==> (ok <==> Passes(p, l, python.limit))
    ensures python.Since313? && NoDots(p) ==> ok
  {
    InsideByName(p, l);
    if python.Until312? {
      AnsweredExactly(p, l, python.limit);
    }
    var r := Resolve(p, l, python);
    return r.At?;
  }

  lemma SelfLinkLoops(p: Payload)
    requires p.links == map[["l"] := ["l"]]
    ensures NoDots(p) && !Inside(p, ["l"])
  {
    var l := ["l"];
    assert [] + l == l && l[1..] == [];
    assert Follow(p, {} + {l}, [], l) == Caught(l, [[]]);
    FollowArrives(p, l);
    InsideByName(p, l);
  }

  /** Since Python 3.13 a link to itself passes. */
  method LoopPasses(p: Payload) returns (ok: bool)
    requires p.links == map[["l"] := ["l"]]
    ensures ok && !Inside(p, ["l"])
  {
    SelfLinkLoops(p);
    ok := LinkInside(p, ["l"], Since313);
  }
}
