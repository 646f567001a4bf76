/** The detector that reads a command's output in blocks; bytes are written as characters. */
module RuntimeAudit {
  datatype Failure = ThreadException | Unraisable | LoggingError | FatalError

  const TAIL := 4096

  /** Text that starts with `head`, goes on within the line, and ends with a colon. */
  predicate LineToColon(head: string, text: string) {
    && |text| > |head| && head <= text && text[|text| - 1] == ':'
    && forall k | |head| <= k < |text| :: text[k] != '\r' && text[k] != '\n'
  }

  /** What each pattern matches, apart from its place. */
  predicate Matches(f: Failure, text: string) {
    match f
    case ThreadException => LineToColon("Exception in thread ", text)
    case Unraisable => LineToColon("Exception ignored in", text) || LineToColon("Exception ignored while calling", text)
    case LoggingError => text == "--- Logging error ---"
    case FatalError => text == "Fatal Python error:"
  }

  /** A set of texts, as a pattern names it. */
  type Pattern = string -> bool

  function PatternOf(f: Failure): Pattern {
    text => Matches(f, text)
  }

  /** A match from `i` to `j`: at the start of the payload or of a line. */
  predicate MatchAt(m: Pattern, payload: string, i: nat, j: nat) {
    i <= j <= |payload| && (i == 0 || payload[i - 1] == '\n') && m(payload[i..j])
  }

  predicate Found(m: Pattern, payload: string) {
    exists i: nat, j: nat | i <= |payload| && j <= |payload| :: MatchAt(m, payload, i, j)
  }

  /** failures, on one payload. */
  function Failures(payload: string): (s: set<Failure>)
    ensures forall f :: f in s <==> Found(PatternOf(f), payload)
  {
    set f | f in {ThreadException, Unraisable, LoggingError, FatalError} && Found(PatternOf(f), payload)
  }

  /** The output up to block `k`. */
  function Stream(blocks: seq<string>, k: nat): string
    requires k <= |blocks|
  {
    if k == 0 then "" else Stream(blocks, k - 1) + blocks[k - 1]
  }

  /** Where the last TAIL bytes of so many begin. */
  function Cut(n: nat): nat {
    if n <= TAIL then 0 else n - TAIL
  }

  function Last(s: string): string {
    s[Cut(|s|)..]
  }

  /** What is looked at when block `k` arrives: the end of what came before, and the block. */
  function Window(blocks: seq<string>, k: nat): string
    requires k < |blocks|
  {
    Last(Stream(blocks, k)) + blocks[k]
  }

  /** Where the window of block `k` starts in the output. */
  function WindowStart(blocks: seq<string>, k: nat): nat
    requires k <= |blocks|
  {
    Cut(|Stream(blocks, k)|)
  }

  lemma DropAppend(a: string, b: string, d: nat)
    requires d <= |a|
    ensures a[d..] + b == (a + b)[d..]
  {
  }

  lemma DropDrop(s: string, d: nat, e: nat)
    requires d + e <= |s|
    ensures s[d..][e..] == s[d + e..]
  {
  }

  lemma CutAgain(before: nat, block: nat)
    ensures Cut(before) + Cut(before - Cut(before) + block) == Cut(before + block)
  {
  }

  /** The tail kept from window to window is the tail of the whole output. */
  lemma TailOfTail(before: string, block: string)
    ensures Last(Last(before) + block) == Last(before + block)
  {
    var d := Cut(|before|);
    DropAppend(before, block, d);
    CutAgain(|before|, |block|);
    DropDrop(before + block, d, Cut(|before| - d + |block|));
  }

  /** What the windows up to block `k` hold. */
  ghost predicate FoundUpTo(found: set<Failure>, blocks: seq<string>, k: nat)
    requires k <= |blocks|
  {
    forall f :: f in found <==> exists i | 0 <= i < k :: Found(PatternOf(f), Window(blocks, i))
  }

  lemma FoundNext(found: set<Failure>, blocks: seq<string>, k: nat)
    requires k < |blocks| && FoundUpTo(found, blocks, k)
    ensures FoundUpTo(found + Failures(Window(blocks, k)), blocks, k + 1)
  {
    var more := found + Failures(Window(blocks, k));
    forall f
      ensures f in more <==> exists i | 0 <= i < k + 1 :: Found(PatternOf(f), Window(blocks, i))
    {
      assert f in more <==> f in found || Found(PatternOf(f), Window(blocks, k));
    }
  }

  lemma {:induction false} StreamGrows(blocks: seq<string>, k: nat, n: nat)
    requires k <= n <= |blocks|
    ensures Stream(blocks, k) <= Stream(blocks, n)
    decreases n
  {
    if k < n {
      StreamGrows(blocks, k, n - 1);
    }
  }

  /** The block a place of the output arrives with. */
  lemma {:induction false} BlockOf(blocks: seq<string>, n: nat, p: nat) returns (k: nat)
    requires n <= |blocks| && p < |Stream(blocks, n)|
    ensures k < n && |Stream(blocks, k)| <= p < |Stream(blocks, k + 1)|
    decreases n
  {
    if p < |Stream(blocks, n - 1)| {
      k := BlockOf(blocks, n - 1, p);
    } else {
      k := n - 1;
    }
  }

  /** A window shows a piece of the output. */
  lemma {:induction false} WindowShows(blocks: seq<string>, k: nat)
    requires k < |blocks|
    ensures var (all, start) := (Stream(blocks, |blocks|), WindowStart(blocks, k));
      start + |Window(blocks, k)| == |Stream(blocks, k + 1)| <= |all|
      && Window(blocks, k) == all[start..start + |Window(blocks, k)|]
  {
    var here, all, start := Stream(blocks, k + 1), Stream(blocks, |blocks|), WindowStart(blocks, k);
    StreamGrows(blocks, k + 1, |blocks|);
    assert Window(blocks, k) == here[start..];
    assert here == all[..|here|];
    assert here[start..] == all[start..|here|];
  }

  /** A piece of the output and the output itself have the same matches there, but for where the piece begins. */
  lemma Shifted(m: Pattern, all: string, start: nat, window: string, a: nat, b: nat)
    requires start + |window| <= |all| && window == all[start..start + |window|] && a <= b <= |window|
    ensures MatchAt(m, all, start + a, start + b) ==> MatchAt(m, window, a, b)
    ensures MatchAt(m, window, a, b) ==>
      m(all[start + a..start + b]) && (start + a == 0 || all[start + a - 1] == '\n' || a == 0)
  {
    var x, y := window[a..b], all[start + a..start + b];
    assert forall k | 0 <= k < |x| :: x[k] == y[k];
    assert x == y;
    assert a > 0 ==> window[a - 1] == all[start + a - 1];
  }

  lemma InWindow(m: Pattern, all: string, start: nat, window: string, i: nat, j: nat)
    requires start + |window| <= |all| && window == all[start..start + |window|]
    requires start <= i <= j <= start + |window| && MatchAt(m, all, i, j)
    ensures Found(m, window)
  {
    Shifted(m, all, start, window, i - start, j - start);
  }

  lemma WindowReaches(blocks: seq<string>, k: nat, i: nat, j: nat)
    requires k < |blocks| && |Stream(blocks, k)| < j <= |Stream(blocks, k + 1)| && i < j <= i + TAIL + 1
    ensures WindowStart(blocks, k) <= i && j <= WindowStart(blocks, k) + |Window(blocks, k)|
  {
    WindowShows(blocks, k);
  }

  /** However the output is cut into blocks, a match of at most 4097 bytes is found. */
  lemma MatchSeen(blocks: seq<string>, m: Pattern, i: nat, j: nat) returns (k: nat)
    requires MatchAt(m, Stream(blocks, |blocks|), i, j) && 0 < j - i <= TAIL + 1
    ensures k < |blocks| && Found(m, Window(blocks, k))
  {
    var all := Stream(blocks, |blocks|);
    k := BlockOf(blocks, |blocks|, j - 1);
    WindowShows(blocks, k);
    WindowReaches(blocks, k, i, j);
    InWindow(m, all, WindowStart(blocks, k), Window(blocks, k), i, j);
  }

  function Exactly(text: string): Pattern {
    x => x == text
  }

  /** A line starts behind `a`. */
  predicate StartsLine(a: string) {
    a == "" || a[|a| - 1] == '\n'
  }

  /** A text of at most 4097 bytes that starts a line of the output starts a line of some window, whole. */
  lemma NothingMissed(blocks: seq<string>, a: string, text: string, b: string)
    returns (k: nat, before: string, behind: string)
    requires Stream(blocks, |blocks|) == a + text + b && StartsLine(a) && 0 < |text| <= 4097
    ensures k < |blocks| && Window(blocks, k) == before + text + behind && StartsLine(before)
  {
    var all := Stream(blocks, |blocks|);
    assert all[|a|..|a| + |text|] == text;
    assert a != "" ==> all[|a| - 1] == a[|a| - 1];
    k := MatchSeen(blocks, Exactly(text), |a|, |a| + |text|);
    var window := Window(blocks, k);
    var i: nat, j: nat :| i <= |window| && j <= |window| && MatchAt(Exactly(text), window, i, j);
    before, behind := window[..i], window[j..];
    Pieces(window, i, j);
  }

  /** Matching text that begins a line, or begins at `start`. */
  predicate StandsAt(m: Pattern, all: string, start: nat, i: nat, j: nat) {
    i <= j <= |all| && m(all[i..j]) && (i == 0 || all[i - 1] == '\n' || i == start)
  }

  lemma MatchIn(m: Pattern, payload: string) returns (i: nat, j: nat)
    requires Found(m, payload)
    ensures MatchAt(m, payload, i, j)
  {
    i, j :| i <= |payload| && j <= |payload| && MatchAt(m, payload, i, j);
  }

  /** What is found is in the output, at the start of a line or where a window begins. */
  lemma {:induction false} FoundIsThere(blocks: seq<string>, m: Pattern, k: nat) returns (i: nat, j: nat)
    requires k < |blocks| && Found(m, Window(blocks, k))
    ensures StandsAt(m, Stream(blocks, |blocks|), WindowStart(blocks, k), i, j)
  {
    var all, start, window := Stream(blocks, |blocks|), WindowStart(blocks, k), Window(blocks, k);
    WindowShows(blocks, k);
    var a, b := MatchIn(m, window);
    Shifted(m, all, start, window, a, b);
    i, j := start + a, start + b;
  }

  // The command

  predicate Spells(text: string, head: string, x: string) {
    text == head + x + ":" && forall c | c in x :: c != '\r' && c != '\n'
  }

  /** The texts a pattern is written for: a heading, whatever goes on within the line, and a colon; or a fixed text. */
  ghost predicate TextFor(f: Failure, text: string) {
    match f
    case ThreadException => exists x :: Spells(text, "Exception in thread ", x)
    case Unraisable =>
      exists x :: Spells(text, "Exception ignored in", x) || Spells(text, "Exception ignored while calling", x)
    case LoggingError => text == "--- Logging error ---"
    case FatalError => text == "Fatal Python error:"
  }

  lemma LineSpells(head: string, text: string)
    ensures LineToColon(head, text) <==> exists x :: Spells(text, head, x)
  {
    if LineToColon(head, text) {
      var x := text[|head|..|text| - 1];
      forall c | c in x
        ensures c != '\r' && c != '\n'
      {
        var k :| 0 <= k < |x| && x[k] == c;
        assert text[|head| + k] == c;
      }
      assert Spells(text, head, x);
    }
    if x :| Spells(text, head, x) {
      forall k | |head| <= k < |text|
        ensures text[k] != '\r' && text[k] != '\n'
      {
        assert k < |text| - 1 ==> text[k] == x[k - |head|] && x[k - |head|] in x;
      }
    }
  }

  lemma MatchesTexts(f: Failure, text: string)
    ensures Matches(f, text) <==> TextFor(f, text)
  {
    LineSpells("Exception in thread ", text);
    LineSpells("Exception ignored in", text);
    LineSpells("Exception ignored while calling", text);
  }

  /** The output has `text` after `a`, at its start or at the start of a line. */
  ghost predicate Shows(output: string, f: Failure, a: string, text: string, b: string) {
    output == a + text + b && StartsLine(a) && TextFor(f, text)
  }

  /** The output has `text` after `a`, where a line or a window starts. */
  ghost predicate ShowsAt(blocks: seq<string>, k: nat, f: Failure, a: string, text: string, b: string) {
    && k < |blocks| && Stream(blocks, |blocks|) == a + text + b && TextFor(f, text)
    && (StartsLine(a) || |a| == |Stream(blocks, k)| - 4096)
  }

  lemma {:induction false} ShownIsFound(found: set<Failure>, blocks: seq<string>, f: Failure, a: string, text: string,
                                        b: string)
    requires FoundUpTo(found, blocks, |blocks|)
    requires Shows(Stream(blocks, |blocks|), f, a, text, b) && 0 < |text| <= 4097
    ensures f in found
  {
    var all := Stream(blocks, |blocks|);
    MatchesTexts(f, text);
    assert all[|a|..|a| + |text|] == text;
    assert |a| > 0 ==> all[|a| - 1] == a[|a| - 1];
    var k := MatchSeen(blocks, PatternOf(f), |a|, |a| + |text|);
  }

  lemma Pieces(all: string, i: nat, j: nat)
    requires i <= j <= |all|
    ensures all == all[..i] + all[i..j] + all[j..]
    ensures i > 0 ==> all[..i][|all[..i]| - 1] == all[i - 1]
  {
  }

  lemma {:induction false} StartIs(blocks: seq<string>, k: nat, i: nat)
    requires k < |blocks| && i == WindowStart(blocks, k)
    ensures i == 0 || i == |Stream(blocks, k)| - 4096
  {
  }

  lemma PatternMatches(f: Failure, text: string)
    ensures PatternOf(f)(text) <==> TextFor(f, text)
  {
    MatchesTexts(f, text);
  }

  lemma LineOrWindow(m: Pattern, all: string, start: nat, i: nat, j: nat)
    requires StandsAt(m, all, start, i, j)
    ensures all == all[..i] + all[i..j] + all[j..] && m(all[i..j]) && |all[..i]| == i
    ensures StartsLine(all[..i]) || i == start
  {
  }

  lemma FoundIsShown(found: set<Failure>, blocks: seq<string>, f: Failure)
    returns (k: nat, a: string, text: string, b: string)
    requires FoundUpTo(found, blocks, |blocks|) && f in found
    ensures ShowsAt(blocks, k, f, a, text, b)
  {
    k :| 0 <= k < |blocks| && Found(PatternOf(f), Window(blocks, k));
    var all := Stream(blocks, |blocks|);
    var i, j := FoundIsThere(blocks, PatternOf(f), k);
    LineOrWindow(PatternOf(f), all, WindowStart(blocks, k), i, j);
    PatternMatches(f, all[i..j]);
    StartIs(blocks, k, WindowStart(blocks, k));
    a, text, b := all[..i], all[i..j], all[j..];
  }

  /**
   * checked_command: whatever the output shows at its start or at the start of a
   * line, in at most 4097 bytes, is found, however it is cut into blocks; what is
   * found is in the output, where a line or a window starts.  The exit status is
   * the command's own unless that is 0 and something was found.
   */
  method CheckedCommand(blocks: seq<string>, status: int) returns (exit: int, found: set<Failure>)
    ensures forall f, a, text, b | Shows(Stream(blocks, |blocks|), f, a, text, b) && 0 < |text| <= 4097 ::
      f in found && exit != 0
    ensures forall f | f in found :: exists k: nat, a, text, b :: ShowsAt(blocks, k, f, a, text, b)
    ensures exit == 0 <==> status == 0 && found == {}
    ensures status != 0 ==> exit == status
  {
    found := ReadLoop(blocks);
    forall f, a, text, b | Shows(Stream(blocks, |blocks|), f, a, text, b) && 0 < |text| <= 4097
      ensures f in found
    {
      ShownIsFound(found, blocks, f, a, text, b);
    }
    forall f | f in found
      ensures exists k: nat, a, text, b :: ShowsAt(blocks, k, f, a, text, b)
    {
      var k, a, text, b := FoundIsShown(found, blocks, f);
    }
    exit := if status != 0 then status else if found != {} then 1 else 0;
  }

  /** The read loop: what it finds is what any window holds. */
  method ReadLoop(blocks: seq<string>) returns (found: set<Failure>)
    ensures FoundUpTo(found, blocks, |blocks|)
  {
    found := {};
    var tail := "";
    for k := 0 to |blocks|
      invariant tail == Last(Stream(blocks, k))
      invariant FoundUpTo(found, blocks, k)
    {
      var block := blocks[k];
      FoundNext(found, blocks, k);
      found := found + Failures(tail + block);
      TailOfTail(Stream(blocks, k), block);
      tail := Last(tail + block);
    }
  }

  const HEAD := "Exception in thread "

  lemma ToTheColon(text: string)
    requires |text| >= 20 && HEAD <= text && forall c | c in text :: c != '\r' && c != '\n'
    ensures LineToColon(HEAD, text + ":") && text[0] == 'E' && text[1] == 'x'
  {
    assert |HEAD| == 20 && HEAD[0] == 'E' && HEAD[1] == 'x';
    var all := text + ":";
    assert HEAD <= all;
    forall k | |HEAD| <= k < |all|
      ensures all[k] != '\r' && all[k] != '\n'
    {
      if k < |text| {
        assert all[k] == text[k] && text[k] in text;
      }
    }
  }

  /** One byte more may be missed: the last byte alone in its block. */
  lemma LongerMatchMissed(text: string)
    requires |text| == TAIL + 1 && HEAD <= text && forall c | c in text :: c != ':' && c != '\r' && c != '\n'
    ensures MatchAt(PatternOf(ThreadException), Stream([text, ":"], 2), 0, TAIL + 2)
    ensures forall k | 0 <= k < 2 :: !Found(PatternOf(ThreadException), Window([text, ":"], k))
  {
    ToTheColon(text);
    TwoBlocks(text, ":");
    var all := text + ":";
    assert all[0..TAIL + 2] == all;
    NoColonNoMatch(text);
    var second := text[1..] + ":";
    forall k | 0 <= k < |second|
      ensures second[k] != '\n'
    {
      if k < TAIL {
        assert second[k] == text[k + 1] && text[k + 1] in text;
      }
    }
    NoLineNoMatch(second);
  }

  lemma TwoBlocks(a: string, b: string)
    requires |a| == TAIL + 1
    ensures var blocks := [a, b];
      Stream(blocks, 2) == a + b && Window(blocks, 0) == a && Window(blocks, 1) == a[1..] + b
  {
    var blocks := [a, b];
    assert Stream(blocks, 0) == "";
    assert "" + a == a;
    assert Stream(blocks, 1) == a;
  }

  lemma NoColonNoMatch(text: string)
    requires forall c | c in text :: c != ':'
    ensures !Found(PatternOf(ThreadException), text)
  {
    forall i: nat, j: nat | i <= |text| && j <= |text| && i <= j
      ensures !Matches(ThreadException, text[i..j])
    {
      if j > i {
        assert text[i..j][j - i - 1] == text[j - 1] && text[j - 1] in text;
      }
    }
  }

  lemma NoLineNoMatch(text: string)
    requires text != "" && text[0] != 'E' && forall k | 0 <= k < |text| :: text[k] != '\n'
    ensures !Found(PatternOf(ThreadException), text)
  {
    forall i: nat, j: nat | i <= |text| && j <= |text|
      ensures !MatchAt(PatternOf(ThreadException), text, i, j)
    {
      if i == 0 && j > 0 {
        assert text[i..j][0] == text[0] && HEAD[0] == 'E';
      }
    }
  }
}
