/** The names the cleanup transaction gives its own files, and the order of paths. */
module CleanupNames {
  import opened FileTree

  const TRANSACTION_ROOT: Path := ["cycle-cleanups"]
  const MARKER_SUFFIX := ".remove.json"
  const STAGING_SUFFIX := ".remove"
  const PHASE_SUFFIX := ".rmtree.json"

  function Decimal(n: nat): (s: string)
    ensures s != []
    ensures n < 10 <==> |s| == 1
  {
    var digit := '0' + (n % 10) as char;
    if n < 10 then [digit] else Decimal(n / 10) + [digit]
  }

  lemma {:induction false} DecimalInjective(a: nat, b: nat)
    requires Decimal(a) == Decimal(b)
    ensures a == b
  {
    var s := Decimal(a);
    assert s[|s| - 1] == '0' + (a % 10) as char == '0' + (b % 10) as char;
    if a >= 10 {
      assert Decimal(a / 10) == s[..|s| - 1] == Decimal(b / 10);
      DecimalInjective(a / 10, b / 10);
    }
  }

  /** Lower-case words joined by single hyphens. */
  predicate IsCycleName(s: string) {
    && s != ""
    && s[0] != '-' && s[|s| - 1] != '-'
    && (forall k | 0 <= k < |s| :: 'a' <= s[k] <= 'z' || '0' <= s[k] <= '9' || s[k] == '-')
    && (forall k | 0 <= k < |s| - 1 :: s[k] == '-' ==> s[k + 1] != '-')
  }

  function Joined(words: seq<string>): string
    requires words != []
  {
    if |words| == 1 then words[0] else words[0] + "-" + Joined(words[1..])
  }

  /** A non-empty word of lower-case letters and digits. */
  predicate IsWord(w: string) {
    w != "" && forall k | 0 <= k < |w| :: 'a' <= w[k] <= 'z' || '0' <= w[k] <= '9'
  }

  ghost predicate JoinsWords(s: string, words: seq<string>) {
    words != [] && (forall w | w in words :: IsWord(w)) && s == Joined(words)
  }

  /** Behind the first word there is nothing, or a hyphen and another cycle name. */
  lemma {:induction false} FirstWord(s: string, k: nat) returns (n: nat)
    requires IsCycleName(s) && k <= |s| && forall i | 0 <= i < k :: s[i] != '-'
    ensures k <= n <= |s| && IsWord(s[..n])
    ensures n < |s| ==> s[n] == '-' && IsCycleName(s[n + 1..])
    decreases |s| - k
  {
    if k == |s| || s[k] == '-' {
      n := k;
    } else {
      n := FirstWord(s, k + 1);
    }
  }

  lemma WordThenName(w: string, rest: string)
    requires IsWord(w)
    ensures IsCycleName(w)
    ensures IsCycleName(rest) ==> IsCycleName(w + "-" + rest)
  {
    if IsCycleName(rest) {
      var s := w + "-" + rest;
      assert forall k | 0 <= k < |w| :: s[k] == w[k];
      assert s[|w|] == '-';
      assert forall k | 0 <= k < |rest| :: s[|w| + 1 + k] == rest[k];
    }
  }

  lemma {:induction false} JoinedIsName(words: seq<string>)
    requires words != [] && forall w | w in words :: IsWord(w)
    ensures IsCycleName(Joined(words))
  {
    if |words| == 1 {
      WordThenName(words[0], "");
    } else {
      JoinedIsName(words[1..]);
      WordThenName(words[0], Joined(words[1..]));
    }
  }

  lemma {:induction false} NameIsJoined(s: string) returns (words: seq<string>)
    requires IsCycleName(s)
    ensures JoinsWords(s, words)
    decreases |s|
  {
    var n := FirstWord(s, 0);
    if n == |s| {
      words := [s];
      assert s[..n] == s;
    } else {
      var rest := NameIsJoined(s[n + 1..]);
      words := [s[..n]] + rest;
      assert words[1..] == rest && s == s[..n] + "-" + s[n + 1..];
    }
  }

  /** A cycle name is words joined by single hyphens, and nothing else is one. */
  lemma CycleNameIsWords(s: string)
    ensures IsCycleName(s) <==> exists words :: JoinsWords(s, words)
  {
    if IsCycleName(s) {
      var words := NameIsJoined(s);
    }
    if words :| JoinsWords(s, words) {
      JoinedIsName(words);
    }
  }

  predicate IsMarkerName(n: string) {
    && |n| > |MARKER_SUFFIX|
    && n[|n| - |MARKER_SUFFIX|..] == MARKER_SUFFIX
    && IsCycleName(n[..|n| - |MARKER_SUFFIX|])
  }

  function MarkerName(cycle: string): string {
    cycle + MARKER_SUFFIX
  }

  function StagingName(cycle: string, index: nat): string {
    "." + cycle + "." + Decimal(index) + STAGING_SUFFIX
  }

  function PhaseName(cycle: string, index: nat): string {
    "." + cycle + "." + Decimal(index) + PHASE_SUFFIX
  }

  lemma MarkerNameIsOne(cycle: string)
    requires IsCycleName(cycle)
    ensures IsMarkerName(MarkerName(cycle))
    ensures forall i: nat :: !IsMarkerName(StagingName(cycle, i)) && !IsMarkerName(PhaseName(cycle, i))
  {
    var n := MarkerName(cycle);
    assert n[|n| - |MARKER_SUFFIX|..] == MARKER_SUFFIX && n[..|n| - |MARKER_SUFFIX|] == cycle;
    forall i: nat, n | n == StagingName(cycle, i) || n == PhaseName(cycle, i)
      ensures !IsMarkerName(n)
    {
      assert n[0] == '.';
    }
  }

  /** Distinct indices give distinct names, and the two kinds never meet. */
  lemma NamesDistinct(cycle: string, i: nat, j: nat)
    ensures StagingName(cycle, i) == StagingName(cycle, j) ==> i == j
    ensures PhaseName(cycle, i) == PhaseName(cycle, j) ==> i == j
    ensures StagingName(cycle, i) != PhaseName(cycle, j)
  {
    var head := "." + cycle + ".";
    if StagingName(cycle, i) == StagingName(cycle, j) {
      SameMiddle(head, Decimal(i), Decimal(j), STAGING_SUFFIX);
      DecimalInjective(i, j);
    }
    if PhaseName(cycle, i) == PhaseName(cycle, j) {
      SameMiddle(head, Decimal(i), Decimal(j), PHASE_SUFFIX);
      DecimalInjective(i, j);
    }
    var s, f := StagingName(cycle, i), PhaseName(cycle, j);
    assert s[|s| - 1] == 'e' && f[|f| - 1] == 'n';
  }

  lemma SameMiddle(head: string, a: string, b: string, tail: string)
    requires head + a + tail == head + b + tail
    ensures a == b
  {
    assert |a| == |b|;
    assert (head + a + tail)[|head|..|head| + |a|] == a;
    assert (head + b + tail)[|head|..|head| + |a|] == b;
  }

  /** The text of a path, its names joined by "/". */
  function Posix(p: Path): string {
    if p == [] then "" else if |p| == 1 then p[0] else p[0] + "/" + Posix(p[1..])
  }

  /** Code-point order of strings. */
  predicate StringLess(a: string, b: string) {
    if b == "" then false
    else if a == "" then true
    else a[0] < b[0] || (a[0] == b[0] && StringLess(a[1..], b[1..]))
  }

  /** A directory's text is a proper prefix of the text of everything below it. */
  lemma {:induction false} PosixExtends(p: Path, q: Path)
    requires p != [] && p < q
    ensures Posix(p) < Posix(q)
  {
    assert p[0] == q[0];
    if |p| > 1 {
      assert p[1..] < q[1..];
      PosixExtends(p[1..], q[1..]);
      assert Posix(q) == (p[0] + "/") + Posix(q[1..]);
      assert Posix(p) == (p[0] + "/") + Posix(p[1..]);
    } else {
      assert Posix(q) == p[0] + ("/" + Posix(q[1..]));
    }
  }

  lemma {:induction false} PrefixIsLess(a: string, b: string)
    requires a < b
    ensures StringLess(a, b)
  {
    if a != "" {
      assert a[0] == b[0] && a[1..] < b[1..];
      PrefixIsLess(a[1..], b[1..]);
    }
  }

  lemma {:induction false} StringLessAsymmetric(a: string, b: string)
    requires StringLess(a, b)
    ensures !StringLess(b, a)
  {
    if a != "" && a[0] == b[0] {
      StringLessAsymmetric(a[1..], b[1..]);
    }
  }
}
