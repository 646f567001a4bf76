/** Which case a fixup's subject names, said of the text as it is written. */
module SquashNaming {
  import opened SquashSpec
  import opened SquashReplay

  // The subject

  /** The prefixes, one after the other, and then the target. */
  function Written(prefixes: seq<string>, target: string): string {
    if prefixes == [] then target else prefixes[0] + Written(prefixes[1..], target)
  }

  predicate IsPrefix(x: string) {
    x == "fixup! " || x == "squash! " || x == "amend! "
  }

  /** The subject is written with one or more fixup prefixes before a target that has none. */
  ghost predicate Writes(subject: string, prefixes: seq<string>, target: string) {
    && prefixes != [] && subject == Written(prefixes, target)
    && (forall n | 0 <= n < |prefixes| :: IsPrefix(prefixes[n]))
    && !("fixup! " <= target) && !("squash! " <= target) && !("amend! " <= target)
  }

  /** What the prefix written first asks for. */
  function ActionWritten(prefix: string): Action {
    if prefix == "fixup! " then Fixup else if prefix == "squash! " then Squash else FixupMessage
  }

  lemma PrefixIs(prefix: string, rest: string)
    requires IsPrefix(prefix)
    ensures PrefixOf(prefix + rest) == prefix && (prefix + rest)[|prefix|..] == rest
  {
    var subject := prefix + rest;
    assert subject[..|prefix|] == prefix && subject[0] == prefix[0];
  }

  lemma {:induction false} WrittenStrips(prefixes: seq<string>, target: string)
    requires forall n | 0 <= n < |prefixes| :: IsPrefix(prefixes[n])
    requires !("fixup! " <= target) && !("squash! " <= target) && !("amend! " <= target)
    ensures Stripped(Written(prefixes, target)) == target
    ensures PrefixOf(Written(prefixes, target)) == if prefixes == [] then "" else prefixes[0]
    decreases |prefixes|
  {
    if prefixes != [] {
      PrefixIs(prefixes[0], Written(prefixes[1..], target));
      WrittenStrips(prefixes[1..], target);
    }
  }

  /** Every subject with a fixup prefix is written so. */
  lemma {:induction false} IsWritten(subject: string) returns (prefixes: seq<string>)
    ensures if PrefixOf(subject) == "" then prefixes == [] && subject == Stripped(subject)
            else Writes(subject, prefixes, Stripped(subject))
    decreases |subject|
  {
    var prefix := PrefixOf(subject);
    if prefix == "" {
      prefixes := [];
    } else {
      var inner := subject[|prefix|..];
      var more := IsWritten(inner);
      prefixes := [prefix] + more;
      assert prefixes[1..] == more && subject == prefix + inner;
      assert PrefixOf(Stripped(inner)) == "" by { StrippedIsPlain(inner); }
    }
  }

  lemma {:induction false} StrippedIsPlain(subject: string)
    ensures PrefixOf(Stripped(subject)) == ""
    decreases |subject|
  {
    if PrefixOf(subject) != "" {
      StrippedIsPlain(subject[|PrefixOf(subject)|..]);
    }
  }

  // The paths

  /** A control file by name, or anything below a control directory. */
  predicate IsControl(path: string) {
    || path == "AGENTS.md" || path == ".gitignore"
    || ".github/workflows/" <= path || ".github/upstream-workflows/" <= path || "fork-maintenance/" <= path
  }

  lemma AllowedAre(a: string)
    ensures a in ALLOWED_DEVELOP_PATHS <==>
      || a == "AGENTS.md" || a == ".gitignore"
      || a == ".github/workflows/" || a == ".github/upstream-workflows/" || a == "fork-maintenance/"
  {
    var all := ALLOWED_DEVELOP_PATHS;
    assert all[0] in all && all[1] in all && all[2] in all && all[3] in all && all[4] in all;
    if a in all {
      var i :| 0 <= i < |all| && all[i] == a;
      assert i == 0 || i == 1 || i == 2 || i == 3 || i == 4;
    }
  }

  /** `a` lets `path` through: as a directory, or as that very file. */
  predicate Allows(a: string, path: string) {
    if a != "" && a[|a| - 1] == '/' then a <= path else path == a
  }

  lemma AllowsEach(path: string)
    ensures Allows("AGENTS.md", path) <==> path == "AGENTS.md"
    ensures Allows(".gitignore", path) <==> path == ".gitignore"
    ensures Allows(".github/workflows/", path) <==> ".github/workflows/" <= path
    ensures Allows(".github/upstream-workflows/", path) <==> ".github/upstream-workflows/" <= path
    ensures Allows("fork-maintenance/", path) <==> "fork-maintenance/" <= path
  {
  }

  lemma Allowed(path: string, a: string)
    requires a in ALLOWED_DEVELOP_PATHS && Allows(a, path)
    ensures IsControl(path)
  {
    AllowedAre(a);
    AllowsEach(path);
  }

  lemma ControlPaths(path: string)
    ensures ControlPath(path) <==> IsControl(path)
  {
    if ControlPath(path) {
      var a :| a in ALLOWED_DEVELOP_PATHS && Allows(a, path);
      Allowed(path, a);
    }
    if IsControl(path) {
      var a := WhatAllows(path);
    }
  }

  lemma WhatAllows(path: string) returns (a: string)
    requires IsControl(path)
    ensures a in ALLOWED_DEVELOP_PATHS && Allows(a, path)
  {
    AllowsEach(path);
    a := if path == "AGENTS.md" || path == ".gitignore" then path
         else if ".github/workflows/" <= path then ".github/workflows/"
         else if ".github/upstream-workflows/" <= path then ".github/upstream-workflows/"
         else "fork-maintenance/";
    AllowedAre(a);
  }

  // The case

  /** Case `i` is committed before commit `k`. */
  predicate IsEarlier(h: History, k: nat, i: nat) {
    i < |h.cases| && k <= |h.commits| && h.cases[i].commit in h.commits[..k]
  }

  predicate IsEqual(h: History, target: string, i: nat)
    requires i < |h.cases|
  {
    h.cases[i].commit == target || h.cases[i].subject == target
  }

  predicate Begins(h: History, target: string, i: nat)
    requires i < |h.cases|
  {
    target != "" && (target <= h.cases[i].commit || target <= h.cases[i].subject)
  }

  /** Case `i` alone of the earlier ones is the target's; or none is, and it alone begins with it. */
  ghost predicate Names(h: History, k: nat, target: string, i: nat) {
    && IsEarlier(h, k, i)
    && if IsEqual(h, target, i)
       then forall j: nat | IsEarlier(h, k, j) && IsEqual(h, target, j) :: j == i
       else
         && (forall j: nat | IsEarlier(h, k, j) :: !IsEqual(h, target, j))
         && Begins(h, target, i)
         && forall j: nat | IsEarlier(h, k, j) && Begins(h, target, j) :: j == i
  }

  /** `from` says where in `s` the elements of `kept` come from, in order; all of them are kept, and nothing else is. */
  ghost predicate Selects(s: seq<Case>, keep: Case -> bool, kept: seq<Case>, from: seq<nat>) {
    ComesFrom(s, keep, kept, from) && Ascending(from) && Covers(s, keep, from)
  }

  ghost predicate ComesFrom(s: seq<Case>, keep: Case -> bool, kept: seq<Case>, from: seq<nat>) {
    |from| == |kept| && forall n | 0 <= n < |from| :: from[n] < |s| && kept[n] == s[from[n]] && keep(kept[n])
  }

  ghost predicate Covers(s: seq<Case>, keep: Case -> bool, from: seq<nat>) {
    forall j: nat | j < |s| && keep(s[j]) :: j in from
  }

  function Later(from: seq<nat>): (r: seq<nat>)
    ensures |r| == |from| && forall n | 0 <= n < |r| :: r[n] == from[n] + 1
  {
    seq(|from|, n requires 0 <= n < |from| => from[n] + 1)
  }

  lemma LaterCovers(s: seq<Case>, keep: Case -> bool, from: seq<nat>, j: nat)
    requires s != [] && Covers(s[1..], keep, from) && 0 < j < |s| && keep(s[j])
    ensures j in Later(from)
  {
    assert s[1..][j - 1] == s[j];
    var n :| 0 <= n < |from| && from[n] == j - 1;
    assert Later(from)[n] == j;
  }

  lemma SelectsLater(s: seq<Case>, keep: Case -> bool, kept: seq<Case>, from: seq<nat>)
    requires s != [] && !keep(s[0]) && Selects(s[1..], keep, kept, from)
    ensures Selects(s, keep, kept, Later(from))
  {
    forall j: nat | j < |s| && keep(s[j])
      ensures j in Later(from)
    {
      LaterCovers(s, keep, from, j);
    }
  }

  lemma FirstComes(s: seq<Case>, keep: Case -> bool, kept: seq<Case>, from: seq<nat>)
    requires s != [] && keep(s[0]) && ComesFrom(s[1..], keep, kept, from) && Ascending(from)
    ensures ComesFrom(s, keep, [s[0]] + kept, [0] + Later(from)) && Ascending([0] + Later(from))
  {
    var all, more := [0] + Later(from), [s[0]] + kept;
    forall n | 0 <= n < |all|
      ensures all[n] < |s| && more[n] == s[all[n]] && keep(more[n])
    {
      if n > 0 {
        assert all[n] == from[n - 1] + 1 && more[n] == kept[n - 1];
      }
    }
    forall n, m | 0 <= n < m < |all|
      ensures all[n] < all[m]
    {
      assert all[m] == from[m - 1] + 1;
      assert n > 0 ==> all[n] == from[n - 1] + 1;
    }
  }

  lemma FirstCovers(s: seq<Case>, keep: Case -> bool, from: seq<nat>)
    requires s != [] && Covers(s[1..], keep, from)
    ensures Covers(s, keep, [0] + Later(from))
  {
    var all := [0] + Later(from);
    assert all[0] == 0;
    forall j: nat | j < |s| && keep(s[j])
      ensures j in all
    {
      if j > 0 {
        LaterCovers(s, keep, from, j);
      }
    }
  }

  lemma {:induction false} FilterSelects(s: seq<Case>, keep: Case -> bool) returns (from: seq<nat>)
    ensures Selects(s, keep, Filter(s, keep), from)
  {
    if s == [] {
      from := [];
    } else {
      var rest := FilterSelects(s[1..], keep);
      if keep(s[0]) {
        FirstComes(s, keep, Filter(s[1..], keep), rest);
        FirstCovers(s, keep, rest);
        from := [0] + Later(rest);
      } else {
        SelectsLater(s, keep, Filter(s[1..], keep), rest);
        assert [] + Filter(s[1..], keep) == Filter(s[1..], keep);
        from := Later(rest);
      }
    }
  }

  /** Positions of positions. */
  function Through(early: seq<nat>, late: seq<nat>): (r: seq<nat>)
    requires forall n | 0 <= n < |late| :: late[n] < |early|
    ensures |r| == |late| && forall n | 0 <= n < |r| :: r[n] == early[late[n]]
  {
    seq(|late|, n requires 0 <= n < |late| => early[late[n]])
  }

  lemma ThroughAscends(early: seq<nat>, late: seq<nat>)
    requires Ascending(early) && Ascending(late) && forall n | 0 <= n < |late| :: late[n] < |early|
    ensures Ascending(Through(early, late))
  {
  }

  lemma ThroughCovers(s: seq<Case>, a: Case -> bool, mid: seq<Case>, early: seq<nat>, b: Case -> bool,
                      late: seq<nat>, j: nat)
    requires ComesFrom(s, a, mid, early) && Covers(s, a, early) && Covers(mid, b, late)
    requires forall n | 0 <= n < |late| :: late[n] < |early|
    requires j < |s| && a(s[j]) && b(s[j])
    ensures j in Through(early, late)
  {
    var m :| 0 <= m < |early| && early[m] == j;
    assert mid[m] == s[j];
    var n :| 0 <= n < |late| && late[n] == m;
    assert Through(early, late)[n] == j;
  }

  /** Case `i` is an earlier one that `keep` keeps. */
  predicate Kept(h: History, k: nat, keep: Case -> bool, i: nat) {
    IsEarlier(h, k, i) && keep(h.cases[i])
  }

  /** Where the earlier cases that are kept stand among all cases. */
  lemma KeptAt(h: History, k: nat, keep: Case -> bool) returns (at: seq<nat>)
    requires WellFormed(h) && k < |h.commits|
    ensures |at| == |Filter(Earlier(h, k), keep)| && Ascending(at)
    ensures forall n | 0 <= n < |at| ::
      Kept(h, k, keep, at[n]) && Filter(Earlier(h, k), keep)[n] == h.cases[at[n]]
    ensures forall j: nat | Kept(h, k, keep, j) :: j in at
  {
    var among := Among(h.commits[..k]);
    var early := FilterSelects(h.cases, among);
    var late := FilterSelects(Earlier(h, k), keep);
    at := Through(early, late);
    ThroughAscends(early, late);
    forall j: nat | Kept(h, k, keep, j)
      ensures j in at
    {
      ThroughCovers(h.cases, among, Earlier(h, k), early, keep, late, j);
    }
  }

  /** Case `i` alone is kept. */
  ghost predicate Sole(h: History, k: nat, keep: Case -> bool, i: nat) {
    Kept(h, k, keep, i) && forall j: nat | Kept(h, k, keep, j) :: j == i
  }

  /** `at` holds the positions of just the cases that are kept. */
  ghost predicate KeptAre(h: History, k: nat, keep: Case -> bool, at: seq<nat>) {
    Ascending(at) && forall j: nat :: j in at <==> Kept(h, k, keep, j)
  }

  lemma SoleIsAt(h: History, k: nat, keep: Case -> bool, at: seq<nat>)
    requires KeptAre(h, k, keep, at)
    ensures at == [] <==> forall j: nat :: !Kept(h, k, keep, j)
    ensures forall i: nat | Sole(h, k, keep, i) :: at == [i]
    ensures |at| == 1 ==> Sole(h, k, keep, at[0])
  {
    if at != [] {
      assert at[0] in at;
    }
    if |at| > 1 {
      assert at[0] < at[1] && at[1] in at;
    }
    forall i: nat | Sole(h, k, keep, i)
      ensures at == [i]
    {
      assert i in at;
    }
  }

  /** A filter of the earlier cases keeps just one exactly if there is just one. */
  lemma OneKept(h: History, k: nat, keep: Case -> bool)
    requires WellFormed(h) && k < |h.commits|
    ensures Filter(Earlier(h, k), keep) == [] <==> forall j: nat :: !Kept(h, k, keep, j)
    ensures |Filter(Earlier(h, k), keep)| == 1 <==> exists i: nat :: Sole(h, k, keep, i)
    ensures forall i: nat | Sole(h, k, keep, i) :: Filter(Earlier(h, k), keep) == [h.cases[i]]
  {
    var at := KeptAt(h, k, keep);
    assert KeptAre(h, k, keep, at);
    SoleIsAt(h, k, keep, at);
  }

  /** What the candidates are chosen by. */
  function Test(h: History, k: nat, target: string): Case -> bool
    requires WellFormed(h) && k < |h.commits|
  {
    if Filter(Earlier(h, k), Equals(target)) != [] then Equals(target) else BeginsWith(target)
  }

  lemma EqualsKept(h: History, k: nat, target: string)
    ensures forall j: nat :: Kept(h, k, Equals(target), j) <==> IsEarlier(h, k, j) && IsEqual(h, target, j)
    ensures forall j: nat :: Kept(h, k, BeginsWith(target), j) <==> IsEarlier(h, k, j) && Begins(h, target, j)
  {
  }

  /** To be named is to be the only one equal, or, where none is, the only one that begins so. */
  lemma NamesSole(h: History, k: nat, target: string, i: nat)
    requires WellFormed(h) && k < |h.commits|
    ensures Names(h, k, target, i) <==> Sole(h, k, Test(h, k, target), i)
  {
    EqualsKept(h, k, target);
    OneKept(h, k, Equals(target));
  }

  /** The candidates are one case exactly if the subject names one, and then it is that. */
  lemma CandidatesNamed(h: History, k: nat, prefixes: seq<string>, target: string)
    requires WellFormed(h) && k < |h.commits| && Writes(h.subjects[h.commits[k]], prefixes, target)
    ensures |Candidates(h, k)| == 1 <==> exists i: nat :: Names(h, k, target, i)
    ensures forall i: nat | Names(h, k, target, i) :: Candidates(h, k) == [h.cases[i]]
  {
    WrittenStrips(prefixes, target);
    OneKept(h, k, Test(h, k, target));
    assert Candidates(h, k) == Filter(Earlier(h, k), Test(h, k, target));
    forall i: nat
      ensures Names(h, k, target, i) <==> Sole(h, k, Test(h, k, target), i)
    {
      NamesSole(h, k, target, i);
    }
  }
}
