/** Which case a pending fixup commit belongs to, and the order the squash puts the commits in. */
module SquashSpec {

  datatype Case = Case(commit: string, subject: string)

  datatype Action = Pick | Fixup | Squash | FixupMessage

  datatype Line = Line(action: Action, commit: string)

  /**
   * The fork's commits, oldest first, with the subject and the changed paths of
   * each; `cases` are the case commits among them, oldest first.
   */
  datatype History = History(commits: seq<string>, subjects: map<string, string>, paths: map<string, set<string>>,
                             cases: seq<Case>, control: set<string>)

  const ALLOWED_DEVELOP_PATHS: seq<string> :=
    ["AGENTS.md", ".gitignore", ".github/workflows/", ".github/upstream-workflows/", "fork-maintenance/"]

  /** allowed_develop_path: a control path, by name or below a control directory. */
  predicate ControlPath(path: string) {
    exists a | a in ALLOWED_DEVELOP_PATHS ::
      if a != "" && a[|a| - 1] == '/' then a <= path else path == a
  }

  const FIXUP := "fixup! "
  const SQUASH := "squash! "
  const AMEND := "amend! "

  /** The fixup prefix a subject starts with, or "". */
  function PrefixOf(subject: string): string {
    if FIXUP <= subject then FIXUP
    else if SQUASH <= subject then SQUASH
    else if AMEND <= subject then AMEND
    else ""
  }

  function ActionFor(prefix: string): Action {
    if prefix == FIXUP then Fixup else if prefix == SQUASH then Squash else FixupMessage
  }

  /** The subject below all its fixup prefixes. */
  function Stripped(subject: string): string {
    var prefix := PrefixOf(subject);
    if prefix == "" then subject else Stripped(subject[|prefix|..])
  }

  predicate WellFormed(h: History) {
    && (forall i, j | 0 <= i < j < |h.commits| :: h.commits[i] != h.commits[j])
    && (forall c | c in h.commits :: c in h.subjects && c in h.paths)
    && (forall x | x in h.cases :: x.commit in h.commits && PrefixOf(h.subjects[x.commit]) == "")
    && (forall c | c in h.control :: c in h.commits && PrefixOf(h.subjects[c]) == ""
          && forall p | p in h.paths[c] :: ControlPath(p))
  }

  predicate IsPending(h: History, k: nat)
    requires WellFormed(h) && k < |h.commits|
  {
    PrefixOf(h.subjects[h.commits[k]]) != ""
  }

  function Position(h: History, c: string): nat
    requires WellFormed(h) && c in h.commits
    ensures Position(h, c) < |h.commits| && h.commits[Position(h, c)] == c
  {
    var k :| 0 <= k < |h.commits| && h.commits[k] == c;
    k
  }

  function Filter(s: seq<Case>, keep: Case -> bool): (r: seq<Case>)
    ensures forall x :: x in r <==> x in s && keep(x)
  {
    if s == [] then []
    else (if keep(s[0]) then [s[0]] else []) + Filter(s[1..], keep)
  }

  function Among(commits: seq<string>): Case -> bool {
    (x: Case) => x.commit in commits
  }

  function Equals(target: string): Case -> bool {
    (x: Case) => target == x.commit || target == x.subject
  }

  function BeginsWith(target: string): Case -> bool {
    (x: Case) => target != "" && (target <= x.commit || target <= x.subject)
  }

  function Earlier(h: History, k: nat): seq<Case>
    requires WellFormed(h) && k < |h.commits|
  {
    Filter(h.cases, Among(h.commits[..k]))
  }

  /** The earlier cases a fixup's subject names: by exact commit or subject, else by a prefix of one. */
  function Candidates(h: History, k: nat): seq<Case>
    requires WellFormed(h) && k < |h.commits|
  {
    var target := Stripped(h.subjects[h.commits[k]]);
    var exact := Filter(Earlier(h, k), Equals(target));
    if exact != [] then exact else Filter(Earlier(h, k), BeginsWith(target))
  }

  predicate TouchesControl(h: History, k: nat)
    requires WellFormed(h) && k < |h.commits|
  {
    exists p | p in h.paths[h.commits[k]] :: ControlPath(p)
  }

  /** The first `n` commits' fixups each name one earlier case and change no control path. */
  predicate Resolved(h: History, n: nat)
    requires WellFormed(h) && n <= |h.commits|
  {
    forall k | 0 <= k < n && IsPending(h, k) :: |Candidates(h, k)| == 1 && !TouchesControl(h, k)
  }

  /** The position of the pick commit `k` goes to: its own, or that of its case. */
  function Owner(h: History, k: nat): (o: nat)
    requires WellFormed(h) && Resolved(h, |h.commits|) && k < |h.commits|
    ensures o <= k && !IsPending(h, o)
    ensures IsPending(h, k) <==> o < k
  {
    if !IsPending(h, k) then k
    else
      var x := Candidates(h, k)[0];
      assert x in Candidates(h, k) && x in Earlier(h, k) && x in h.cases && x.commit in h.commits[..k];
      var j :| 0 <= j < k && h.commits[j] == x.commit;
      assert Position(h, x.commit) == j;
      Position(h, x.commit)
  }

  /** A fixup of a fixup names the same cases as the fixup it mends. */
  lemma NestedFixup(h: History, k: nat, j: nat)
    requires WellFormed(h) && j <= k < |h.commits|
    requires var (inner, outer) := (h.subjects[h.commits[j]], h.subjects[h.commits[k]]);
      exists prefix :: prefix in {FIXUP, SQUASH, AMEND} && outer == prefix + inner
    ensures Stripped(h.subjects[h.commits[k]]) == Stripped(h.subjects[h.commits[j]])
    ensures Earlier(h, k) == Earlier(h, j) ==> Candidates(h, k) == Candidates(h, j)
  {
    var (inner, outer) := (h.subjects[h.commits[j]], h.subjects[h.commits[k]]);
    var prefix :| prefix in {FIXUP, SQUASH, AMEND} && outer == prefix + inner;
    assert outer[..|prefix|] == prefix && outer[|prefix|..] == inner;
    assert outer[0] == prefix[0];
    assert PrefixOf(outer) == prefix;
  }
}
