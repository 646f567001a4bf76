/** case_squash_todo, and what its todo list does to the history it rewrites. */
module SquashTodo {
  import opened Wrappers
  import opened Sequences
  import opened SquashSpec
  import opened SquashReplay
  import opened SquashOrder
  import opened SquashLines
  import opened SquashNaming

  predicate Ready(h: History) {
    WellFormed(h) && Resolved(h, |h.commits|)
  }

  function Owners(h: History): (w: seq<nat>)
    requires Ready(h)
    ensures |w| == |h.commits| && forall k | 0 <= k < |w| :: w[k] == Owner(h, k)
  {
    seq(|h.commits|, k requires 0 <= k < |h.commits| => Owner(h, k))
  }

  lemma OwnersOk(h: History)
    requires Ready(h)
    ensures IsOwners(Owners(h))
  {
    var w := Owners(h);
    forall k | 0 <= k < |w|
      ensures w[k] <= k && w[w[k]] == w[k]
    {
      assert !IsPending(h, Owner(h, k));
    }
  }

  /** The positions of the commits in the order of the todo. */
  function TodoOrder(h: History): seq<nat>
    requires Ready(h)
  {
    Order(Owners(h), |h.commits|)
  }

  function LineOf(h: History, k: nat): Line {
    if k < |h.commits| && h.commits[k] in h.subjects then
      var prefix := PrefixOf(h.subjects[h.commits[k]]);
      Line(if prefix == "" then Pick else ActionFor(prefix), h.commits[k])
    else Line(Pick, "")
  }

  function AllLines(h: History): (ls: seq<Line>)
    ensures |ls| == |h.commits| && forall k | 0 <= k < |ls| :: ls[k] == LineOf(h, k)
  {
    seq(|h.commits|, k requires 0 <= k < |h.commits| => LineOf(h, k))
  }

  /**
   * The todo is a permutation of the commits: each exactly once.  The picks keep
   * their order, and each fixup comes after its pick and before the next one, in
   * the order of the history.
   */
  lemma TodoPermutes(h: History)
    requires Ready(h)
    ensures NoTwice(TodoOrder(h))
    ensures forall k :: k in TodoOrder(h) <==> k in AllCommits(|h.commits|)
    ensures InTodoOrder(Owners(h), TodoOrder(h))
  {
    OwnersOk(h);
    OrderInOrder(Owners(h), |h.commits|);
  }

  lemma CandidateIsOwner(h: History, k: nat)
    requires Ready(h) && k < |h.commits| && IsPending(h, k)
    ensures Candidates(h, k)[0].commit == h.commits[Owner(h, k)] && Owners(h)[k] < k
    ensures LineOf(h, k) == Line(ActionFor(PrefixOf(h.subjects[h.commits[k]])), h.commits[k])
  {
    var x := Candidates(h, k)[0];
    assert x in Candidates(h, k) && x in Earlier(h, k) && x in h.cases;
  }

  /** A fixup that cannot be placed, and why. */
  function Problem(h: History, k: nat): Option<string>
    requires WellFormed(h) && k < |h.commits|
    ensures Problem(h, k).None? <==> (IsPending(h, k) ==> |Candidates(h, k)| == 1 && !TouchesControl(h, k))
  {
    if !IsPending(h, k) then None
    else if |Candidates(h, k)| != 1 then
      Some("fixup does not identify exactly one earlier case; use its exact commit SHA")
    else if TouchesControl(h, k) then Some("case fixup also changes control paths")
    else None
  }

  lemma ResolvedNext(h: History, k: nat)
    requires WellFormed(h) && k < |h.commits|
    ensures Resolved(h, k + 1) <==> Resolved(h, k) && Problem(h, k).None?
  {
  }

  lemma ResolvedAll(h: History, k: nat)
    requires Ready(h) && k < |h.commits|
    ensures Problem(h, k).None?
  {
  }

  /** `pending` holds the fixups among the first `k` commits. */
  ghost predicate PendingAre(h: History, k: nat, pending: set<string>)
    requires WellFormed(h)
  {
    forall j | 0 <= j < |h.commits| :: h.commits[j] in pending <==> j < k && IsPending(h, j)
  }

  lemma PendingNext(h: History, k: nat, pending: set<string>)
    requires WellFormed(h) && k < |h.commits| && PendingAre(h, k, pending)
    ensures IsPending(h, k) ==> PendingAre(h, k + 1, pending + {h.commits[k]})
    ensures !IsPending(h, k) ==> PendingAre(h, k + 1, pending)
  {
  }

  /** What the first loop has filed when every fixup can be placed. */
  ghost predicate FiledTo(h: History, k: nat, fixups: map<string, seq<Line>>) {
    Ready(h) ==> Filed(h.commits, AllLines(h), Owners(h), k, fixups)
  }

  lemma FileFixup(h: History, k: nat, fixups: map<string, seq<Line>>, c: string, line: Line)
    requires WellFormed(h) && k < |h.commits| && FiledTo(h, k, fixups)
    requires IsPending(h, k) && Problem(h, k).None? && c == Candidates(h, k)[0].commit
    requires line == Line(ActionFor(PrefixOf(h.subjects[h.commits[k]])), h.commits[k])
    ensures FiledTo(h, k + 1, fixups[c := FiledUnder(fixups, c) + [line]])
  {
    if Ready(h) {
      CandidateIsOwner(h, k);
      FiledNext(h.commits, AllLines(h), Owners(h), k, fixups, FiledUnder(fixups, c) + [line]);
    }
  }

  lemma FilePick(h: History, k: nat, fixups: map<string, seq<Line>>)
    requires WellFormed(h) && k < |h.commits| && FiledTo(h, k, fixups) && !IsPending(h, k)
    ensures FiledTo(h, k + 1, fixups)
  {
    if Ready(h) {
      FiledSkip(h.commits, AllLines(h), Owners(h), k, fixups);
    }
  }

  lemma FileNothing(h: History)
    requires WellFormed(h)
    ensures FiledTo(h, 0, map[])
  {
  }

  /** The first loop: every fixup's line is filed under its case's commit. */
  method FileFixups(h: History) returns (r: Result<map<string, seq<Line>>, string>, pending: set<string>)
    requires WellFormed(h)
    ensures r.Ok? <==> Ready(h)
    ensures r.Ok? ==> FiledTo(h, |h.commits|, r.value) && PendingAre(h, |h.commits|, pending)
  {
    var fixups: map<string, seq<Line>> := map[];
    pending := {};
    FileNothing(h);
    for k := 0 to |h.commits|
      invariant Resolved(h, k) && FiledTo(h, k, fixups) && PendingAre(h, k, pending)
    {
      var commit := h.commits[k];
      var problem := Problem(h, k);
      if problem.Some? {
        if Ready(h) { ResolvedAll(h, k); }
        return Err(problem.value), pending;
      }
      ResolvedNext(h, k);
      PendingNext(h, k, pending);
      if IsPending(h, k) {
        pending := pending + {commit};
        var c := Candidates(h, k)[0].commit;
        var line := Line(ActionFor(PrefixOf(h.subjects[commit])), commit);
        FileFixup(h, k, fixups, c, line);
        fixups := fixups[c := FiledUnder(fixups, c) + [line]];
      } else {
        FilePick(h, k, fixups);
      }
    }
    r := Ok(fixups);
  }

  /** `todo` holds the lines of the blocks of the first `k` commits. */
  ghost predicate TodoIs(h: History, k: nat, todo: seq<Line>)
    requires Ready(h) && k <= |h.commits|
  {
    todo == Lines(AllLines(h), Order(Owners(h), k))
  }

  lemma TodoNext(h: History, k: nat, fixups: map<string, seq<Line>>, todo: seq<Line>)
    requires Ready(h) && k < |h.commits| && FiledTo(h, |h.commits|, fixups) && TodoIs(h, k, todo)
    ensures if IsPending(h, k) then TodoIs(h, k + 1, todo)
            else TodoIs(h, k + 1, todo + [Line(Pick, h.commits[k])] + FiledUnder(fixups, h.commits[k]))
  {
    if !IsPending(h, k) {
      BlockLines(h.commits, AllLines(h), Owners(h), k, fixups);
    }
  }

  /** The second loop: each pick is followed by the lines filed under it. */
  method LayOut(h: History, fixups: map<string, seq<Line>>, pending: set<string>) returns (todo: seq<Line>)
    requires Ready(h) && FiledTo(h, |h.commits|, fixups) && PendingAre(h, |h.commits|, pending)
    ensures TodoIs(h, |h.commits|, todo)
  {
    todo := [];
    for k := 0 to |h.commits|
      invariant TodoIs(h, k, todo)
    {
      TodoNext(h, k, fixups, todo);
      var commit := h.commits[k];
      if commit !in pending {
        todo := todo + [Line(Pick, commit)];
        todo := todo + FiledUnder(fixups, commit);
      }
    }
  }

  // What the subjects say

  /** In the todo, `line` comes behind the pick of commit `c`, and before any other pick. */
  ghost predicate Behind(todo: seq<Line>, c: string, line: Line) {
    exists a, b :: BehindAt(todo, c, line, a, b)
  }

  predicate BehindAt(todo: seq<Line>, c: string, line: Line, a: nat, b: nat) {
    && a < b < |todo| && todo[a] == Line(Pick, c) && todo[b] == line
    && forall j | a < j <= b :: !todo[j].action.Pick?
  }

  lemma PositionsExist(h: History, k: nat) returns (a: nat, b: nat)
    requires Ready(h) && k < |h.commits|
    ensures a < |TodoOrder(h)| && TodoOrder(h)[a] == Owner(h, k)
    ensures b < |TodoOrder(h)| && TodoOrder(h)[b] == k
  {
    TodoPermutes(h);
    assert k in TodoOrder(h) && Owner(h, k) in TodoOrder(h);
    a :| 0 <= a < |TodoOrder(h)| && TodoOrder(h)[a] == Owner(h, k);
    b :| 0 <= b < |TodoOrder(h)| && TodoOrder(h)[b] == k;
  }

  lemma TodoLines(h: History)
    requires Ready(h)
    ensures var todo := Lines(AllLines(h), TodoOrder(h));
      |todo| == |TodoOrder(h)| && forall i | 0 <= i < |todo| ::
        TodoOrder(h)[i] < |h.commits| && todo[i] == LineOf(h, TodoOrder(h)[i])
  {
    TodoPermutes(h);
    var order := TodoOrder(h);
    forall i | 0 <= i < |order|
      ensures order[i] < |h.commits|
    {
      assert order[i] in order;
    }
    LinesAt(AllLines(h), order);
  }

  /** Between a pick and one of its fixups there are only fixups. */
  lemma OnlyFixups(h: History, k: nat, a: nat, b: nat)
    requires Ready(h) && k < |h.commits| && IsPending(h, k) && a < |TodoOrder(h)| && b < |TodoOrder(h)|
    requires TodoOrder(h)[a] == Owner(h, k) && TodoOrder(h)[b] == k
    ensures a < b && forall j | a < j <= b :: TodoOrder(h)[j] < |h.commits| && IsPending(h, TodoOrder(h)[j])
  {
    TodoPermutes(h);
    OwnersOk(h);
    Together(Owners(h), TodoOrder(h), a, b);
  }

  lemma FixupLines(h: History, s: seq<nat>, todo: seq<Line>, a: nat, b: nat)
    requires WellFormed(h) && |todo| == |s| && b < |s|
    requires forall i | 0 <= i < |s| :: s[i] < |h.commits| && todo[i] == LineOf(h, s[i])
    requires forall j | a < j <= b :: s[j] < |h.commits| && IsPending(h, s[j])
    ensures forall j | a < j <= b :: !todo[j].action.Pick?
  {
    forall j | a < j <= b
      ensures !todo[j].action.Pick?
    {
      assert todo[j] == LineOf(h, s[j]);
    }
  }

  lemma StandsBehind(h: History, k: nat)
    requires Ready(h) && k < |h.commits| && IsPending(h, k)
    ensures Behind(Lines(AllLines(h), TodoOrder(h)), h.commits[Owner(h, k)], LineOf(h, k))
  {
    var todo := Lines(AllLines(h), TodoOrder(h));
    var a, b := PositionsExist(h, k);
    OnlyFixups(h, k, a, b);
    TodoLines(h);
    FixupLines(h, TodoOrder(h), todo, a, b);
    assert BehindAt(todo, h.commits[Owner(h, k)], LineOf(h, k), a, b);
  }

  /** Commit `k` is a fixup whose subject names case `i`. */
  ghost predicate IsFixupOf(h: History, k: nat, prefixes: seq<string>, target: string, i: nat)
    requires WellFormed(h)
  {
    k < |h.commits| && Writes(h.subjects[h.commits[k]], prefixes, target) && Names(h, k, target, i)
  }

  /** Every fixup's line stands behind the case its subject names. */
  ghost predicate Follows(h: History, todo: seq<Line>)
    requires WellFormed(h)
  {
    forall k: nat, prefixes, target, i: nat | IsFixupOf(h, k, prefixes, target, i) ::
      Behind(todo, h.cases[i].commit, Line(ActionWritten(prefixes[0]), h.commits[k]))
  }

  lemma FixupFollows(h: History, k: nat, prefixes: seq<string>, target: string, i: nat)
    requires Ready(h) && IsFixupOf(h, k, prefixes, target, i)
    ensures Behind(Lines(AllLines(h), TodoOrder(h)), h.cases[i].commit,
                   Line(ActionWritten(prefixes[0]), h.commits[k]))
  {
    WrittenStrips(prefixes, target);
    CandidatesNamed(h, k, prefixes, target);
    CandidateIsOwner(h, k);
    StandsBehind(h, k);
  }

  /** The fixup's subject names one earlier case, and it changes no control path. */
  ghost predicate Placeable(h: History, k: nat, target: string)
    requires WellFormed(h) && k < |h.commits|
  {
    (exists i: nat :: Names(h, k, target, i)) && forall p | p in h.paths[h.commits[k]] :: !IsControl(p)
  }

  lemma NoControl(h: History, k: nat)
    requires WellFormed(h) && k < |h.commits|
    ensures TouchesControl(h, k) <==> exists p | p in h.paths[h.commits[k]] :: IsControl(p)
  {
    forall p | p in h.paths[h.commits[k]]
      ensures ControlPath(p) <==> IsControl(p)
    {
      ControlPaths(p);
    }
  }

  ghost predicate AllPlaceable(h: History)
    requires WellFormed(h)
  {
    forall k: nat, prefixes, target | k < |h.commits| && Writes(h.subjects[h.commits[k]], prefixes, target) ::
      Placeable(h, k, target)
  }

  lemma ReadyIsPlaceable(h: History)
    requires WellFormed(h)
    ensures Ready(h) <==> AllPlaceable(h)
  {
    if Ready(h) {
      forall k: nat, prefixes, target | k < |h.commits| && Writes(h.subjects[h.commits[k]], prefixes, target)
        ensures Placeable(h, k, target)
      {
        WrittenStrips(prefixes, target);
        CandidatesNamed(h, k, prefixes, target);
        NoControl(h, k);
      }
    }
    if AllPlaceable(h) {
      forall k | 0 <= k < |h.commits| && IsPending(h, k)
        ensures |Candidates(h, k)| == 1 && !TouchesControl(h, k)
      {
        var prefixes := IsWritten(h.subjects[h.commits[k]]);
        var target := Stripped(h.subjects[h.commits[k]]);
        assert Placeable(h, k, target);
        NoControl(h, k);
        CandidatesNamed(h, k, prefixes, target);
      }
    }
  }

  /**
   * case_squash_todo: a todo exactly when every fixup's subject names one earlier
   * case and it touches no control path, and then the lines of the todo order, each
   * fixup's behind the case that its subject names.
   */
  method Todo(h: History) returns (r: Result<seq<Line>, string>)
    requires WellFormed(h)
    ensures r.Ok? <==> Ready(h)
    ensures r.Ok? <==> AllPlaceable(h)
    ensures r.Ok? ==> r.value == Lines(AllLines(h), TodoOrder(h)) && Follows(h, r.value)
  {
    ReadyIsPlaceable(h);
    var fixups, pending := FileFixups(h);
    if fixups.Err? {
      return Err(fixups.error);
    }
    var todo := LayOut(h, fixups.value, pending);
    forall k: nat, prefixes, target, i: nat | IsFixupOf(h, k, prefixes, target, i)
      ensures Behind(todo, h.cases[i].commit, Line(ActionWritten(prefixes[0]), h.commits[k]))
    {
      FixupFollows(h, k, prefixes, target, i);
    }
    return Ok(todo);
  }

  // The final tree

  /** `patches` are the changes of the commits, on the paths the history lists for them. */
  predicate PatchesOf(h: History, patches: seq<Patch>) {
    && WellFormed(h) && |patches| == |h.commits|
    && forall k | 0 <= k < |patches| :: patches[k].Keys == h.paths[h.commits[k]]
  }

  /** No fixup shares a path with another case's commit that it moves across. */
  predicate FixupsIndependent(h: History)
    requires Ready(h)
  {
    forall j, i | 0 <= j < |h.commits| && Owner(h, j) < i < j && Owner(h, i) != Owner(h, j) ::
      h.commits[i] in h.control || h.paths[h.commits[i]] !! h.paths[h.commits[j]]
  }

  /** Control commits never share a path with a fixup. */
  lemma ControlApart(h: History, i: nat, j: nat)
    requires Ready(h) && i < |h.commits| && j < |h.commits|
    requires h.commits[i] in h.control && IsPending(h, j)
    ensures h.paths[h.commits[i]] !! h.paths[h.commits[j]]
  {
    assert !TouchesControl(h, j);
    assert forall p | p in h.paths[h.commits[i]] :: ControlPath(p);
  }

  /** A commit that the todo takes before an earlier one is a fixup of something earlier still. */
  lemma PairApart(h: History, patches: seq<Patch>, j: nat, i: nat)
    requires Ready(h) && PatchesOf(h, patches) && FixupsIndependent(h)
    requires i < j < |h.commits| && TodoBefore(Owners(h), j, i)
    ensures Apart(PatchAt(patches, i), PatchAt(patches, j))
  {
    assert Owner(h, j) < Owner(h, i) <= i < j;
    if h.commits[i] in h.control {
      ControlApart(h, i, j);
    }
  }

  lemma SwappedApart(h: History, patches: seq<Patch>)
    requires Ready(h) && PatchesOf(h, patches) && FixupsIndependent(h)
    ensures SwapsApart(patches, TodoOrder(h))
  {
    var order := TodoOrder(h);
    TodoPermutes(h);
    forall a, b | 0 <= a < b < |order| && order[a] > order[b]
      ensures Apart(PatchAt(patches, order[b]), PatchAt(patches, order[a]))
    {
      assert TodoBefore(Owners(h), order[a], order[b]);
      PairApart(h, patches, order[a], order[b]);
    }
  }

  /** When the fixups are independent, the squash replays cleanly and ends in the tree of the history. */
  lemma {:induction false} SquashKeepsTree(h: History, base: Files, patches: seq<Patch>)
    requires Ready(h) && PatchesOf(h, patches) && FixupsIndependent(h)
    requires Replay(base, patches, AllCommits(|h.commits|)).Some?
    ensures Replay(base, patches, TodoOrder(h)) == Replay(base, patches, AllCommits(|h.commits|))
  {
    TodoPermutes(h);
    SwappedApart(h, patches);
    Reorder(base, patches, AllCommits(|h.commits|), TodoOrder(h));
  }
}
