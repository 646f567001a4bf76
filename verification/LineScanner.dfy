/** How source lines are told apart: blank, comment or code. */
module LineScanner {
  /** str.strip removes these. */
  predicate IsSpace(c: char) {
    var n := c as int;
    9 <= n <= 13 || 28 <= n <= 32 || n == 0x85 || n == 0xa0 || n == 0x1680 || 0x2000 <= n <= 0x200a
    || n == 0x2028 || n == 0x2029 || n == 0x202f || n == 0x205f || n == 0x3000
  }

  predicate IsBlank(s: string) {
    forall c | c in s :: IsSpace(c)
  }

  /** The two characters `a` and `b` stand at `k`. */
  predicate At(line: string, a: char, b: char, k: nat) {
    k + 1 < |line| && line[k] == a && line[k + 1] == b
  }

  /** str.find of a two-character text: the first place at or after `i`, or -1. */
  function Find(line: string, a: char, b: char, i: nat): (r: int)
    requires i <= |line|
    ensures r == -1 || i <= r < |line| - 1
    ensures r >= 0 ==> At(line, a, b, r)
    ensures forall k: nat | i <= k && (r < 0 || k < r) :: !At(line, a, b, k)
    decreases |line| - i
  {
    if i + 1 >= |line| then -1 else if At(line, a, b, i) then i else Find(line, a, b, i + 1)
  }

  /**
   * What a line means, character by character: the code in it, and whether a
   * block comment is open at its end.
   */
  function Meaning(line: string, i: nat, inBlock: bool): (string, bool)
    decreases |line| - i
  {
    if i >= |line| then ("", inBlock)
    else if inBlock then
      if At(line, '*', '/', i) then Meaning(line, i + 2, false) else Meaning(line, i + 1, true)
    else if At(line, '/', '*', i) then Meaning(line, i + 2, true)
    else if At(line, '/', '/', i) then ("", false)
    else
      var (code, open) := Meaning(line, i + 1, false);
      ([line[i]] + code, open)
  }

  lemma {:induction false} InsideBlock(line: string, i: nat, end: nat)
    requires i <= end <= |line| && forall k: nat | i <= k < end :: !At(line, '*', '/', k)
    ensures Meaning(line, i, true) == Meaning(line, end, true)
    decreases end - i
  {
    if i < end {
      InsideBlock(line, i + 1, end);
    }
  }

  lemma {:induction false} OutsideComments(line: string, i: nat, end: nat)
    requires i <= end <= |line|
    requires forall k: nat | i <= k < end :: !At(line, '/', '*', k) && !At(line, '/', '/', k)
    ensures Meaning(line, i, false).0 == line[i..end] + Meaning(line, end, false).0
    ensures Meaning(line, i, false).1 == Meaning(line, end, false).1
    decreases end - i
  {
    if i < end {
      OutsideComments(line, i + 1, end);
      assert line[i..end] == [line[i]] + line[i + 1..end];
    } else {
      assert line[i..end] == "";
    }
  }

  /** Code up to a marker, put behind the code so far. */
  lemma {:induction false} CodeUpTo(line: string, i: nat, end: nat, code: string)
    requires i <= end <= |line|
    requires forall k: nat | i <= k < end :: !At(line, '/', '*', k) && !At(line, '/', '/', k)
    ensures code + Meaning(line, i, false).0 == code + line[i..end] + Meaning(line, end, false).0
    ensures Meaning(line, i, false).1 == Meaning(line, end, false).1
  {
    OutsideComments(line, i, end);
    assert code + (line[i..end] + Meaning(line, end, false).0) == code + line[i..end] + Meaning(line, end, false).0;
  }

  lemma NoMore(code: string)
    ensures code + "" == code
  {
  }

  lemma {:induction false} InlineEnds(line: string, marker: nat)
    requires At(line, '/', '/', marker)
    ensures Meaning(line, marker, false) == ("", false)
  {
  }

  /** The scanner's inner loop, jumping from marker to marker. */
  method ScanLine(line: string, open: bool) returns (code: string, inBlock: bool)
    ensures (code, inBlock) == Meaning(line, 0, open)
  {
    inBlock, code := open, "";
    var i := 0;
    while i < |line|
      invariant i <= |line|
      invariant Meaning(line, 0, open).0 == code + Meaning(line, i, inBlock).0
      invariant Meaning(line, 0, open).1 == Meaning(line, i, inBlock).1
    {
      if inBlock {
        var end := Find(line, '*', '/', i);
        if end < 0 {
          InsideBlock(line, i, |line|);
          i := |line|;
        } else {
          InsideBlock(line, i, end);
          inBlock := false;
          i := end + 2;
        }
        continue;
      }
      var block := Find(line, '/', '*', i);
      var inline := Find(line, '/', '/', i);
      if block < 0 && inline < 0 {
        CodeUpTo(line, i, |line|, code);
        code := code + line[i..|line|];
        NoMore(code);
        return;
      }
      var marker := if block >= 0 && (inline < 0 || block < inline) then block else inline;
      CodeUpTo(line, i, marker, code);
      code := code + line[i..marker];
      if inline >= 0 && inline == marker {
        InlineEnds(line, marker);
        NoMore(code);
        return;
      }
      inBlock := true;
      i := marker + 2;
    }
    NoMore(code);
  }

  // Counting lines

  datatype Kind = Blank | Comment | Code

  datatype Language = CLike | Prefix(prefix: string) | Plain

  /** Which line a line is, when a block comment is open before it or not. */
  function LineKind(language: Language, line: string, open: bool): Kind {
    if IsBlank(line) then Blank
    else
      match language
      case CLike => if IsBlank(Meaning(line, 0, open).0) then Comment else Code
      case Prefix(prefix) => if prefix <= Stripped(line) then Comment else Code
      case Plain => Code
  }

  /** str.lstrip, which decides what a stripped line starts with. */
  function Stripped(line: string): string {
    if line != "" && IsSpace(line[0]) then Stripped(line[1..]) else line
  }

  /** Whether a block comment is open after the first `n` lines; a blank line changes nothing. */
  function OpenAfter(lines: seq<string>, n: nat): bool
    requires n <= |lines|
  {
    if n == 0 then false
    else if IsBlank(lines[n - 1]) then OpenAfter(lines, n - 1)
    else Meaning(lines[n - 1], 0, OpenAfter(lines, n - 1)).1
  }

  /** How many of the first `n` lines are of one kind, with the block state carried from line to line. */
  function Count(language: Language, lines: seq<string>, n: nat, kind: Kind): nat
    requires n <= |lines|
  {
    if n == 0 then 0
    else
      Count(language, lines, n - 1, kind)
      + if LineKind(language, lines[n - 1], OpenAfter(lines, n - 1)) == kind then 1 else 0
  }

  /** Every line is exactly one of blank, comment and code, in every language. */
  lemma {:induction false} EveryLineCounted(language: Language, lines: seq<string>, n: nat)
    requires n <= |lines|
    ensures Count(language, lines, n, Blank) + Count(language, lines, n, Comment) + Count(language, lines, n, Code) == n
    decreases n
  {
    if n > 0 {
      EveryLineCounted(language, lines, n - 1);
    }
  }
}
