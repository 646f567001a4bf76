/** What comments are, said of whole texts, and so which kind a line is. */
module LineKinds {
  import opened LineScanner

  /** The code points of white space: nine controls, the blanks, and the line and paragraph separators. */
  const SPACES: set<int> := {
    9, 10, 11, 12, 13, 28, 29, 30, 31, 32, 133, 160, 5760, 8192, 8193, 8194, 8195, 8196, 8197, 8198, 8199, 8200, 8201,
    8202, 8232, 8233, 8239, 8287, 12288}

  lemma SpaceIs(c: char)
    ensures IsSpace(c) <==> c as int in SPACES
  {
  }

  // Comments

  /** Neither kind of comment begins in the text, nor with its last character. */
  ghost predicate NoMarker(a: string) {
    forall k: nat :: !At(a, '/', '*', k) && !At(a, '/', '/', k)
  }

  ghost predicate NoMarkerBefore(a: string) {
    NoMarker(a) && (a != "" ==> a[|a| - 1] != '/')
  }

  /** No block comment ends in the text. */
  ghost predicate NoEnd(x: string) {
    forall k: nat :: !At(x, '*', '/', k)
  }

  ghost predicate NoEndBefore(x: string) {
    NoEnd(x) && (x != "" ==> x[|x| - 1] != '*')
  }

  lemma AtShifted(a: string, b: string, c: char, d: char, k: nat)
    ensures At(a + b, c, d, |a| + k) <==> At(b, c, d, k)
    ensures k + 1 < |a| ==> (At(a + b, c, d, k) <==> At(a, c, d, k))
  {
  }

  /** The meaning of the rest of a line does not depend on what was before it. */
  lemma {:induction false} MeaningShifted(a: string, b: string, i: nat, open: bool)
    requires i <= |b|
    ensures Meaning(a + b, |a| + i, open) == Meaning(b, i, open)
    decreases |b| - i
  {
    if i < |b| {
      assert (a + b)[|a| + i] == b[i];
      AtShifted(a, b, '*', '/', i);
      AtShifted(a, b, '/', '*', i);
      AtShifted(a, b, '/', '/', i);
      MeaningShifted(a, b, i + 1, open);
      if i + 2 <= |b| {
        MeaningShifted(a, b, i + 2, !open);
      }
      MeaningShifted(a, b, i + 1, false);
    }
  }

  lemma NoneBefore(a: string, b: string, k: nat)
    requires NoMarkerBefore(a) && k < |a|
    ensures !At(a + b, '/', '*', k) && !At(a + b, '/', '/', k)
  {
    AtShifted(a, b, '/', '*', k);
    AtShifted(a, b, '/', '/', k);
    assert !At(a, '/', '*', k) && !At(a, '/', '/', k);
  }

  lemma NoEndBeforeIt(x: string, b: string, k: nat)
    requires NoEndBefore(x) && k < |x|
    ensures !At(x + b, '*', '/', k)
  {
    AtShifted(x, b, '*', '/', k);
    assert !At(x, '*', '/', k);
  }

  /** A line without a marker is code. */
  lemma {:induction false} JustCode(a: string)
    requires NoMarker(a)
    ensures Meaning(a, 0, false) == (a, false)
  {
    OutsideComments(a, 0, |a|);
    assert a[0..|a|] == a && a + "" == a;
  }

  lemma {:induction false} CodeBefore(a: string, b: string)
    requires NoMarkerBefore(a)
    ensures Meaning(a + b, 0, false) == (a + Meaning(b, 0, false).0, Meaning(b, 0, false).1)
  {
    forall k: nat | k < |a|
      ensures !At(a + b, '/', '*', k) && !At(a + b, '/', '/', k)
    {
      NoneBefore(a, b, k);
    }
    OutsideComments(a + b, 0, |a|);
    MeaningShifted(a, b, 0, false);
    assert (a + b)[0..|a|] == a;
  }

  /** Code before a line comment is all the code there is. */
  lemma {:induction false} CodeThenComment(a: string, b: string)
    requires NoMarkerBefore(a)
    ensures Meaning(a + ("//" + b), 0, false) == (a, false)
  {
    CodeBefore(a, "//" + b);
    assert At("//" + b, '/', '/', 0);
    assert a + "" == a;
  }

  /** After code, a block comment opens. */
  lemma {:induction false} CodeThenBlock(a: string, b: string)
    requires NoMarkerBefore(a)
    ensures Meaning(a + ("/*" + b), 0, false) == (a + Meaning(b, 0, true).0, Meaning(b, 0, true).1)
  {
    CodeBefore(a, "/*" + b);
    assert At("/*" + b, '/', '*', 0);
    MeaningShifted("/*", b, 0, true);
  }

  /** An open block comment goes on to its first end, and the line from there. */
  lemma {:induction false} BlockThenRest(x: string, b: string)
    requires NoEndBefore(x)
    ensures Meaning(x + ("*/" + b), 0, true) == Meaning(b, 0, false)
  {
    var rest := "*/" + b;
    forall k: nat | k < |x|
      ensures !At(x + rest, '*', '/', k)
    {
      NoEndBeforeIt(x, rest, k);
    }
    InsideBlock(x + rest, 0, |x|);
    MeaningShifted(x, rest, 0, true);
    assert At(rest, '*', '/', 0);
    MeaningShifted("*/", b, 0, false);
  }

  /** Without an end the whole line is comment, and the next one too. */
  lemma {:induction false} JustComment(x: string)
    requires NoEnd(x)
    ensures Meaning(x, 0, true) == ("", true)
  {
    InsideBlock(x, 0, |x|);
  }

  // Kinds

  /** A line is blank exactly if it has only space, whatever its language. */
  lemma BlankLine(language: Language, line: string, open: bool)
    ensures LineKind(language, line, open) == Blank <==> forall c | c in line :: IsSpace(c)
  {
  }

  /** Code with a comment behind it is a line of code; a comment alone is not. */
  lemma {:induction false} LineComment(a: string, b: string)
    requires NoMarkerBefore(a)
    ensures LineKind(CLike, a + ("//" + b), false) == if IsBlank(a) then Comment else Code
  {
    CodeThenComment(a, b);
    NotBlank(a, "//" + b);
  }

  /** So it is with a block comment that is over within the line, and whatever follows it. */
  lemma {:induction false} BlockComment(a: string, x: string, b: string)
    requires NoMarkerBefore(a) && NoEndBefore(x) && NoMarker(b)
    ensures LineKind(CLike, a + ("/*" + (x + ("*/" + b))), false) == if IsBlank(a) && IsBlank(b) then Comment else Code
  {
    CodeThenBlock(a, x + ("*/" + b));
    BlockThenRest(x, b);
    JustCode(b);
    NotBlank(a, "/*" + (x + ("*/" + b)));
    BlankJoined(a, b);
  }

  /** A line inside a block comment is a comment, unless it is blank; behind its end it is what follows. */
  lemma {:induction false} InComment(x: string, b: string)
    requires NoEndBefore(x) && NoMarker(b)
    ensures LineKind(CLike, x, true) == if IsBlank(x) then Blank else Comment
    ensures LineKind(CLike, x + ("*/" + b), true) == if IsBlank(b) then Comment else Code
  {
    JustComment(x);
    BlockThenRest(x, b);
    JustCode(b);
    NotBlank(x, "*/" + b);
  }

  lemma BlankJoined(a: string, b: string)
    ensures IsBlank(a + b) <==> IsBlank(a) && IsBlank(b)
  {
    assert forall c | c in a :: c in a + b;
    assert forall c | c in b :: c in a + b;
  }

  lemma NotBlank(a: string, marked: string)
    requires marked != "" && !IsSpace(marked[0])
    ensures !IsBlank(a + marked)
  {
    assert (a + marked)[|a|] == marked[0];
    assert marked[0] in a + marked;
  }

  /** The text begins with `prefix`, after nothing but space. */
  ghost predicate StartsWith(line: string, prefix: string) {
    exists indent, rest :: StartsAfter(line, indent, prefix, rest)
  }

  predicate StartsAfter(line: string, indent: string, prefix: string, rest: string) {
    line == indent + (prefix + rest) && IsBlank(indent)
  }

  lemma {:induction false} StrippedIs(line: string) returns (indent: string)
    ensures line == indent + Stripped(line) && IsBlank(indent)
    ensures Stripped(line) != "" ==> !IsSpace(Stripped(line)[0])
  {
    if line != "" && IsSpace(line[0]) {
      var more := StrippedIs(line[1..]);
      indent := [line[0]] + more;
      BlankJoined([line[0]], more);
      assert line == [line[0]] + line[1..];
    } else {
      indent := "";
      assert line == "" + line;
    }
  }

  lemma {:induction false} StripsTo(indent: string, text: string)
    requires IsBlank(indent) && text != "" && !IsSpace(text[0])
    ensures Stripped(indent + text) == text
    decreases |indent|
  {
    if indent == "" {
      assert indent + text == text;
    } else {
      assert (indent + text)[1..] == indent[1..] + text && indent[0] in indent;
      assert forall c | c in indent[1..] :: c in indent;
      StripsTo(indent[1..], text);
    }
  }

  /** In a language with line comments alone, a comment is a line that starts with the prefix. */
  lemma {:induction false} PrefixLine(prefix: string, line: string, open: bool)
    requires prefix != "" && !IsSpace(prefix[0])
    ensures LineKind(Prefix(prefix), line, open) == Comment <==> StartsWith(line, prefix)
    ensures LineKind(Plain, line, open) != Comment
  {
    var indent := StrippedIs(line);
    if prefix <= Stripped(line) {
      var rest := Stripped(line)[|prefix|..];
      assert Stripped(line) == prefix + rest;
      assert StartsAfter(line, indent, prefix, rest);
      NotBlank(indent, prefix + rest);
    }
    if i, rest :| StartsAfter(line, i, prefix, rest) {
      StripsTo(i, prefix + rest);
      NotBlank(i, prefix + rest);
    }
  }

  /** A blank line leaves a block comment as it is, so whether one is open is carried through every line alike. */
  lemma {:induction false} OpenThroughout(lines: seq<string>, n: nat)
    requires 0 < n <= |lines|
    ensures OpenAfter(lines, n) == Meaning(lines[n - 1], 0, OpenAfter(lines, n - 1)).1
  {
    var line := lines[n - 1];
    if IsBlank(line) {
      forall k: nat
        ensures !At(line, '/', '*', k) && !At(line, '/', '/', k) && !At(line, '*', '/', k)
      {
        if k + 1 < |line| {
          assert line[k] in line && IsSpace(line[k]);
        }
      }
      JustCode(line);
      JustComment(line);
    }
  }
}
