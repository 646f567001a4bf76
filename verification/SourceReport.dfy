/** line_stats_for and the totals of build_report. */
module SourceReport {
  import opened Wrappers
  import opened Sequences
  import opened LineScanner

  datatype Counts = Counts(files: nat, bytes: nat, lines: nat, blank: nat, comment: nat, sloc: nat) {
    function Plus(other: Counts): Counts {
      Counts(files + other.files, bytes + other.bytes, lines + other.lines,
             blank + other.blank, comment + other.comment, sloc + other.sloc)
    }

    /** Every line is counted as one of the three kinds. */
    predicate Balanced() {
      blank + comment + sloc == lines
    }
  }

  const NONE: Counts := Counts(0, 0, 0, 0, 0, 0)

  const C_LIKE_EXTENSIONS: set<string> := {".c", ".h", ".cpp", ".hpp", ".cxx", ".hxx", ".m", ".mm", ".cu", ".cuh"}
  const PYTHON_LIKE_EXTENSIONS: set<string> := {".py", ".pyi", ".pyx", ".pxd", ".pxi"}
  const SCRIPT_EXTENSIONS: set<string> := {".sh", ".bash"}
  const LUA_EXTENSIONS: set<string> := {".lua"}

  function LanguageOf(fileType: string): Language {
    if fileType in C_LIKE_EXTENSIONS then CLike
    else if fileType in PYTHON_LIKE_EXTENSIONS || fileType in SCRIPT_EXTENSIONS || fileType == "<none>" then Prefix("#")
    else if fileType in LUA_EXTENSIONS then Prefix("--")
    else Plain
  }

  /** How comments are written, type by type; all other files have none. */
  const LANGUAGES: map<string, Language> := map[
    ".c" := CLike, ".h" := CLike, ".cpp" := CLike, ".hpp" := CLike, ".cxx" := CLike, ".hxx" := CLike,
    ".m" := CLike, ".mm" := CLike, ".cu" := CLike, ".cuh" := CLike,
    ".py" := Prefix("#"), ".pyi" := Prefix("#"), ".pyx" := Prefix("#"), ".pxd" := Prefix("#"), ".pxi" := Prefix("#"),
    ".sh" := Prefix("#"), ".bash" := Prefix("#"), "<none>" := Prefix("#"), ".lua" := Prefix("--")]

  lemma LanguageIs(fileType: string)
    ensures LanguageOf(fileType) == if fileType in LANGUAGES then LANGUAGES[fileType] else Plain
  {
  }

  class LineStats {
    var files: nat
    var bytes: nat
    var lines: nat
    var blankLines: nat
    var commentLines: nat
    var sloc: nat

    function Value(): Counts
      reads this
    {
      Counts(files, bytes, lines, blankLines, commentLines, sloc)
    }

    constructor (c: Counts)
      ensures Value() == c
    {
      files, bytes, lines := c.files, c.bytes, c.lines;
      blankLines, commentLines, sloc := c.blank, c.comment, c.sloc;
    }

    /** Adding counts whose lines are all accounted for leaves the balance as it was. */
    method Add(other: Counts)
      modifies this
      ensures Value() == old(Value()).Plus(other)
      ensures other.Balanced() ==> (Value().Balanced() <==> old(Value()).Balanced())
    {
      files := files + other.files;
      bytes := bytes + other.bytes;
      lines := lines + other.lines;
      blankLines := blankLines + other.blank;
      commentLines := commentLines + other.comment;
      sloc := sloc + other.sloc;
    }

    /** The counters after the first `n` lines of a text. */
    twostate predicate Counted(language: Language, text: seq<string>, n: nat)
      requires n <= |text|
      reads this
    {
      && blankLines == old(blankLines) + Count(language, text, n, Blank)
      && commentLines == old(commentLines) + Count(language, text, n, Comment)
      && sloc == old(sloc) + Count(language, text, n, Code)
    }

    method AddPlain(text: seq<string>)
      modifies this`blankLines, this`commentLines, this`sloc
      ensures Counted(Plain, text, |text|)
    {
      for k := 0 to |text|
        invariant Counted(Plain, text, k)
      {
        if !IsBlank(text[k]) {
          sloc := sloc + 1;
        } else {
          blankLines := blankLines + 1;
        }
      }
    }

    method AddPrefixComment(text: seq<string>, prefix: string)
      modifies this`blankLines, this`commentLines, this`sloc
      ensures Counted(Prefix(prefix), text, |text|)
    {
      for k := 0 to |text|
        invariant Counted(Prefix(prefix), text, k)
      {
        var stripped := Stripped(text[k]);
        if IsBlank(text[k]) {
          blankLines := blankLines + 1;
        } else if prefix <= stripped {
          commentLines := commentLines + 1;
        } else {
          sloc := sloc + 1;
        }
      }
    }

    method AddCLike(text: seq<string>)
      modifies this`blankLines, this`commentLines, this`sloc
      ensures Counted(CLike, text, |text|)
    {
      var inBlock := false;
      for k := 0 to |text|
        invariant Counted(CLike, text, k) && inBlock == OpenAfter(text, k)
      {
        if IsBlank(text[k]) {
          blankLines := blankLines + 1;
          continue;
        }
        var code;
        code, inBlock := ScanLine(text[k], inBlock);
        if !IsBlank(code) {
          sloc := sloc + 1;
        } else {
          commentLines := commentLines + 1;
        }
      }
    }
  }

  /** A file as the report reads it: its type, its size, and its lines; or nothing when it cannot be read. */
  datatype File = File(fileType: string, size: nat, text: seq<string>, readable: bool)

  function StatsOf(f: File): Counts {
    var language := LanguageOf(f.fileType);
    Counts(1, f.size, |f.text|, Count(language, f.text, |f.text|, Blank), Count(language, f.text, |f.text|, Comment),
           Count(language, f.text, |f.text|, Code))
  }

  lemma StatsBalance(f: File)
    ensures StatsOf(f).Balanced()
  {
    EveryLineCounted(LanguageOf(f.fileType), f.text, |f.text|);
  }

  /** line_stats_for: whatever its type, every line of the file is blank, a comment or code. */
  method LineStatsFor(f: File) returns (c: Counts)
    ensures c == StatsOf(f) && c.Balanced()
  {
    StatsBalance(f);
    var stats := new LineStats(Counts(1, f.size, |f.text|, 0, 0, 0));
    match LanguageOf(f.fileType) {
      case CLike => stats.AddCLike(f.text);
      case Prefix(prefix) => stats.AddPrefixComment(f.text, prefix);
      case Plain => stats.AddPlain(f.text);
    }
    c := stats.Value();
  }

  predicate Selected(f: File, only: Option<string>) {
    f.readable && (only.None? || f.fileType == only.value)
  }

  /** The sum over those of the first `n` files that can be read, of one type or of all. */
  function SumFiles(files: seq<File>, n: nat, only: Option<string>): Counts
    requires n <= |files|
  {
    if n == 0 then NONE
    else
      var before := SumFiles(files, n - 1, only);
      if Selected(files[n - 1], only) then before.Plus(StatsOf(files[n - 1])) else before
  }

  /** Blank, comment and code lines add up to the lines, in every sum. */
  lemma {:induction false} SumsBalance(files: seq<File>, n: nat, only: Option<string>)
    requires n <= |files|
    ensures SumFiles(files, n, only).Balanced()
    decreases n
  {
    if n > 0 {
      SumsBalance(files, n - 1, only);
      StatsBalance(files[n - 1]);
    }
  }

  function Entry(byType: map<string, Counts>, t: string): Counts {
    if t in byType then byType[t] else NONE
  }

  /** The table after the first `n` files. */
  ghost predicate Tabulates(byType: map<string, Counts>, files: seq<File>, n: nat)
    requires n <= |files|
  {
    && (forall t :: Entry(byType, t) == SumFiles(files, n, Some(t)))
    && forall i | 0 <= i < n && files[i].readable :: files[i].fileType in byType
  }

  lemma TabulatesNext(byType: map<string, Counts>, files: seq<File>, n: nat)
    requires n < |files| && Tabulates(byType, files, n) && files[n].readable
    ensures var f := files[n];
      Tabulates(byType[f.fileType := Entry(byType, f.fileType).Plus(StatsOf(f))], files, n + 1)
  {
  }

  /** The loop of build_report: the table and the totals are sums over the files that could be read. */
  method Accumulate(files: seq<File>) returns (byType: map<string, Counts>, totals: Counts)
    ensures totals == SumFiles(files, |files|, None) && Tabulates(byType, files, |files|)
  {
    byType := map[];
    var sum := new LineStats(NONE);
    for k := 0 to |files|
      invariant sum.Value() == SumFiles(files, k, None) && Tabulates(byType, files, k)
    {
      var f := files[k];
      if !f.readable {
        continue;
      }
      var stats := LineStatsFor(f);
      TabulatesNext(byType, files, k);
      byType := byType[f.fileType := Entry(byType, f.fileType).Plus(stats)];
      sum.Add(stats);
    }
    totals := sum.Value();
  }

  // The totals are the sum of the table

  /** The sum over the first `n` of some types. */
  function SumTypes(files: seq<File>, k: nat, types: seq<string>, n: nat): Counts
    requires k <= |files| && n <= |types|
  {
    if n == 0 then NONE else SumTypes(files, k, types, n - 1).Plus(SumFiles(files, k, Some(types[n - 1])))
  }

  /** One more file adds to the sum over the types once, when its type has been reached. */
  lemma {:induction false} OneMoreFile(files: seq<File>, k: nat, types: seq<string>, n: nat, at: nat)
    requires k < |files| && n <= |types| && at < |types| && NoTwice(types)
    requires files[k].readable && types[at] == files[k].fileType
    ensures SumTypes(files, k + 1, types, n) ==
      if at < n then SumTypes(files, k, types, n).Plus(StatsOf(files[k])) else SumTypes(files, k, types, n)
    decreases n
  {
    if n > 0 {
      OneMoreFile(files, k, types, n - 1, at);
    }
  }

  lemma {:induction false} UnreadFile(files: seq<File>, k: nat, types: seq<string>, n: nat)
    requires k < |files| && n <= |types| && !files[k].readable
    ensures SumTypes(files, k + 1, types, n) == SumTypes(files, k, types, n)
    decreases n
  {
    if n > 0 {
      UnreadFile(files, k, types, n - 1);
    }
  }

  lemma {:induction false} NothingYet(files: seq<File>, k: nat, types: seq<string>, n: nat)
    requires k == 0 && n <= |types|
    ensures SumTypes(files, k, types, n) == NONE
    decreases n
  {
    if n > 0 {
      NothingYet(files, k, types, n - 1);
    }
  }

  /** The totals are the sum over the types that occur, in whatever order those are taken. */
  lemma {:induction false} TotalsAreSum(files: seq<File>, k: nat, types: seq<string>)
    requires k <= |files| && NoTwice(types)
    requires forall i | 0 <= i < k && files[i].readable :: files[i].fileType in types
    ensures SumFiles(files, k, None) == SumTypes(files, k, types, |types|)
    decreases k
  {
    if k == 0 {
      NothingYet(files, k, types, |types|);
    } else {
      TotalsAreSum(files, k - 1, types);
      if files[k - 1].readable {
        var at :| 0 <= at < |types| && types[at] == files[k - 1].fileType;
        OneMoreFile(files, k - 1, types, |types|, at);
      } else {
        UnreadFile(files, k - 1, types, |types|);
      }
    }
  }
}
