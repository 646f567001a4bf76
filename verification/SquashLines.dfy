/** The lines of a todo, filed under their cases' commits first and laid out afterwards. */
module SquashLines {
  import opened SquashSpec
  import opened SquashOrder

  /** The lines of the commits at the positions `s`; `ls` holds every commit's line. */
  function Lines(ls: seq<Line>, s: seq<nat>): seq<Line> {
    if s == [] then []
    else
      var k := s[|s| - 1];
      Lines(ls, s[..|s| - 1]) + [if k < |ls| then ls[k] else Line(Pick, "")]
  }

  lemma {:induction false} LinesAt(ls: seq<Line>, s: seq<nat>)
    requires forall i | 0 <= i < |s| :: s[i] < |ls|
    ensures |Lines(ls, s)| == |s| && forall i | 0 <= i < |s| :: s[i] < |ls| && Lines(ls, s)[i] == ls[s[i]]
  {
    if s != [] {
      LinesAt(ls, s[..|s| - 1]);
    }
  }

  lemma {:induction false} LinesSnoc(ls: seq<Line>, s: seq<nat>, k: nat)
    requires k < |ls|
    ensures Lines(ls, s + [k]) == Lines(ls, s) + [ls[k]]
  {
    assert (s + [k])[..|s|] == s;
  }

  lemma {:induction false} LinesAppend(ls: seq<Line>, s: seq<nat>, t: seq<nat>)
    ensures Lines(ls, s + t) == Lines(ls, s) + Lines(ls, t)
    decreases |t|
  {
    if t == [] {
      assert s + t == s;
    } else {
      var init, last := t[..|t| - 1], t[|t| - 1];
      LinesAppend(ls, s, init);
      assert s + t == s + init + [last];
      assert (s + init + [last])[..|s + init|] == s + init;
    }
  }

  function FiledUnder(fixups: map<string, seq<Line>>, c: string): seq<Line> {
    if c in fixups then fixups[c] else []
  }

  /** The lines filed under each commit are those of its fixups among the first `k` commits. */
  ghost predicate Filed(commits: seq<string>, ls: seq<Line>, w: seq<nat>, k: nat, fixups: map<string, seq<Line>>) {
    && |w| == |ls| == |commits| && k <= |w|
    && forall o | 0 <= o < |w| :: FiledUnder(fixups, commits[o]) == Lines(ls, FixupsOf(w, o, k))
  }

  lemma LinesGrow(ls: seq<Line>, w: seq<nat>, o: nat, k: nat)
    requires k < |w| == |ls| && w[k] <= k
    ensures Lines(ls, FixupsOf(w, o, k + 1)) ==
      if w[k] == o && o < k then Lines(ls, FixupsOf(w, o, k)) + [ls[k]] else Lines(ls, FixupsOf(w, o, k))
  {
    if w[k] == o && o < k {
      LinesSnoc(ls, FixupsOf(w, o, k), k);
    }
  }

  lemma {:induction false} FiledNextAt(commits: seq<string>, ls: seq<Line>, w: seq<nat>, k: nat,
                                       fixups: map<string, seq<Line>>, filed: seq<Line>, o: nat)
    requires |w| == |ls| == |commits| && k < |w| && w[k] < k && o < |w|
    requires o != w[k] ==> commits[o] != commits[w[k]]
    requires FiledUnder(fixups, commits[o]) == Lines(ls, FixupsOf(w, o, k))
    requires o == w[k] ==> filed == FiledUnder(fixups, commits[o]) + [ls[k]]
    ensures FiledUnder(fixups[commits[w[k]] := filed], commits[o]) == Lines(ls, FixupsOf(w, o, k + 1))
  {
    LinesGrow(ls, w, o, k);
  }

  /** One more fixup is filed under the commit of its case. */
  lemma FiledNext(commits: seq<string>, ls: seq<Line>, w: seq<nat>, k: nat, fixups: map<string, seq<Line>>,
                  filed: seq<Line>)
    requires Filed(commits, ls, w, k, fixups) && k < |w| && w[k] < k
    requires forall i, j | 0 <= i < j < |commits| :: commits[i] != commits[j]
    requires filed == FiledUnder(fixups, commits[w[k]]) + [ls[k]]
    ensures Filed(commits, ls, w, k + 1, fixups[commits[w[k]] := filed])
  {
    forall o: nat | o < |w|
      ensures FiledUnder(fixups[commits[w[k]] := filed], commits[o]) == Lines(ls, FixupsOf(w, o, k + 1))
    {
      FiledNextAt(commits, ls, w, k, fixups, filed, o);
    }
  }

  lemma FiledSkip(commits: seq<string>, ls: seq<Line>, w: seq<nat>, k: nat, fixups: map<string, seq<Line>>)
    requires Filed(commits, ls, w, k, fixups) && k < |w| && w[k] == k
    ensures Filed(commits, ls, w, k + 1, fixups)
  {
    forall o | 0 <= o < |w|
      ensures Lines(ls, FixupsOf(w, o, k + 1)) == Lines(ls, FixupsOf(w, o, k))
    {
      LinesGrow(ls, w, o, k);
    }
  }

  /** A pick's line and the lines filed under it are the next block of the todo. */
  lemma BlockLines(commits: seq<string>, ls: seq<Line>, w: seq<nat>, k: nat, fixups: map<string, seq<Line>>)
    requires Filed(commits, ls, w, |w|, fixups) && k < |w| && w[k] == k
    ensures Lines(ls, Order(w, k + 1)) == Lines(ls, Order(w, k)) + [ls[k]] + FiledUnder(fixups, commits[k])
  {
    var before, fixes := Order(w, k), FixupsOf(w, k, |w|);
    assert before + Block(w, k) == before + [k] + fixes;
    LinesSnoc(ls, before, k);
    LinesAppend(ls, before + [k], fixes);
  }
}
