/** How the tray guesses its rectangle from the places where it was clicked. */
module TrayGeometry {
  import opened Wrappers

  type Point = (int, int)

  datatype Guess = Guess(x: int, y: int, width: int, height: int)

  const UNSET_GUESS: Guess := Guess(0, 0, 0, 0)
  const MAXLEN := 512

  function Least(s: seq<int>): int
    requires s != []
  {
    if |s| == 1 then s[0]
    else
      var m := Least(s[1..]);
      if s[0] < m then s[0] else m
  }

  function Greatest(s: seq<int>): int
    requires s != []
  {
    if |s| == 1 then s[0]
    else
      var m := Greatest(s[1..]);
      if s[0] > m then s[0] else m
  }

  lemma {:induction false} Extremes(s: seq<int>)
    requires s != []
    ensures Least(s) in s && Greatest(s) in s
    ensures forall x | x in s :: Least(s) <= x <= Greatest(s)
  {
    if |s| > 1 {
      Extremes(s[1..]);
      assert forall x | x in s :: x == s[0] || x in s[1..];
    }
  }

  /** The last `n` locations fit together in a box of the given size. */
  ghost predicate Fit(locations: seq<Point>, n: nat, width: int, height: int)
    requires n <= |locations|
  {
    forall i, j | |locations| - n <= i < |locations| && |locations| - n <= j < |locations| ::
      locations[i].0 - locations[j].0 <= width && locations[i].1 - locations[j].1 <= height
  }

  /** `n` is the length of the longest run of last locations that fit together. */
  ghost predicate LongestFit(locations: seq<Point>, n: nat, width: int, height: int) {
    && n <= |locations| && Fit(locations, n, width, height)
    && forall k | n < k <= |locations| :: !Fit(locations, k, width, height)
  }

  /** The rectangle covers the point. */
  predicate Covers(g: Guess, p: Point) {
    g.x <= p.0 <= g.x + g.width && g.y <= p.1 <= g.y + g.height
  }

  /** append on a deque of at most MAXLEN. */
  function Recorded(locations: seq<Point>, p: Point): (r: seq<Point>)
    ensures r != [] && r[|r| - 1] == p
    ensures |locations| < 512 ==> r == locations + [p]
    ensures |locations| == 512 ==> r == locations[1..] + [p]
  {
    if |locations| < MAXLEN then locations + [p] else locations[|locations| - MAXLEN + 1..] + [p]
  }

  predicate Repeats(locations: seq<Point>, p: Point) {
    locations != [] && locations[|locations| - 1] == p
  }

  /** The last location's coordinate, and those of the last `n` locations gathered from the end. */
  function Xs(locations: seq<Point>, n: nat): (s: seq<int>)
    requires n <= |locations| && locations != []
    ensures s != []
  {
    if n == 0 then [locations[|locations| - 1].0] else [locations[|locations| - n].0] + Xs(locations, n - 1)
  }

  function Ys(locations: seq<Point>, n: nat): (s: seq<int>)
    requires n <= |locations| && locations != []
    ensures s != []
  {
    if n == 0 then [locations[|locations| - 1].1] else [locations[|locations| - n].1] + Ys(locations, n - 1)
  }

  /** The values spread over at most `size`. */
  predicate Spread(s: seq<int>, size: int)
    requires s != []
  {
    Greatest(s) - Least(s) <= size
  }

  /** One axis: `v` does not fit with the values in `s`. */
  predicate OutOf(s: seq<int>, v: int, size: int)
    requires s != []
  {
    var (least, greatest) := (Least(s), Greatest(s));
    (v < least && v < greatest - size) || (v > greatest && v > least + size)
  }

  lemma OutOfIs(s: seq<int>, v: int, size: int)
    requires s != [] && Spread(s, size)
    ensures OutOf(s, v, size) <==> !Spread([v] + s, size)
  {
    assert ([v] + s)[1..] == s;
    Extremes(s);
  }

  lemma {:induction false} Gathered(locations: seq<Point>, n: nat, i: nat)
    requires locations != [] && |locations| - n <= i < |locations| && n <= |locations|
    ensures locations[i].0 in Xs(locations, n) && locations[i].1 in Ys(locations, n)
    decreases n
  {
    if i > |locations| - n {
      Gathered(locations, n - 1, i);
    }
  }

  lemma {:induction false} GatheredX(locations: seq<Point>, n: nat, x: int) returns (i: nat)
    requires 0 < n <= |locations| && x in Xs(locations, n)
    ensures |locations| - n <= i < |locations| && locations[i].0 == x
    decreases n
  {
    i := |locations| - n;
    if locations[i].0 != x && n > 1 {
      i := GatheredX(locations, n - 1, x);
    }
  }

  lemma {:induction false} GatheredY(locations: seq<Point>, n: nat, y: int) returns (i: nat)
    requires 0 < n <= |locations| && y in Ys(locations, n)
    ensures |locations| - n <= i < |locations| && locations[i].1 == y
    decreases n
  {
    i := |locations| - n;
    if locations[i].1 != y && n > 1 {
      i := GatheredY(locations, n - 1, y);
    }
  }

  lemma {:induction false} FitIsSpread(locations: seq<Point>, n: nat, width: int, height: int)
    requires 0 < n <= |locations|
    ensures Fit(locations, n, width, height) <==> Spread(Xs(locations, n), width) && Spread(Ys(locations, n), height)
  {
    var xs, ys := Xs(locations, n), Ys(locations, n);
    Extremes(xs);
    Extremes(ys);
    var left := GatheredX(locations, n, Least(xs));
    var right := GatheredX(locations, n, Greatest(xs));
    var top := GatheredY(locations, n, Least(ys));
    var bottom := GatheredY(locations, n, Greatest(ys));
    forall i | |locations| - n <= i < |locations|
      ensures Least(xs) <= locations[i].0 <= Greatest(xs) && Least(ys) <= locations[i].1 <= Greatest(ys)
    {
      Gathered(locations, n, i);
    }
  }

  lemma NothingLonger(locations: seq<Point>, n: nat, width: int, height: int)
    requires n < |locations| && Fit(locations, n, width, height) && !Fit(locations, n + 1, width, height)
    ensures LongestFit(locations, n, width, height)
  {
    forall k | n < k <= |locations|
      ensures !Fit(locations, k, width, height)
    {
      var i, j :| |locations| - (n + 1) <= i < |locations| && |locations| - (n + 1) <= j < |locations|
        && !(locations[i].0 - locations[j].0 <= width && locations[i].1 - locations[j].1 <= height);
    }
  }

  /** The next location back fits exactly when the run with it does; if not, the run without it is the longest. */
  lemma GatherNext(locations: seq<Point>, n: nat, width: int, height: int)
    requires n < |locations| && width >= 0 && height >= 0
    requires Spread(Xs(locations, n), width) && Spread(Ys(locations, n), height)
    ensures var (tx, ty) := locations[|locations| - n - 1];
      if OutOf(Xs(locations, n), tx, width) || OutOf(Ys(locations, n), ty, height)
      then n > 0 && LongestFit(locations, n, width, height)
      else Spread(Xs(locations, n + 1), width) && Spread(Ys(locations, n + 1), height)
  {
    var (tx, ty) := locations[|locations| - n - 1];
    OutOfIs(Xs(locations, n), tx, width);
    OutOfIs(Ys(locations, n), ty, height);
    FitIsSpread(locations, n + 1, width, height);
    if n > 0 {
      FitIsSpread(locations, n, width, height);
      if OutOf(Xs(locations, n), tx, width) || OutOf(Ys(locations, n), ty, height) {
        NothingLonger(locations, n, width, height);
      }
    }
  }

  /** What the loop has gathered from the last `n` locations. */
  ghost predicate GatheredTo(locations: seq<Point>, n: nat, xs: seq<int>, ys: seq<int>, width: int, height: int) {
    && locations != [] && n <= |locations| && xs == Xs(locations, n) && ys == Ys(locations, n)
    && (width >= 0 && height >= 0 ==> Spread(xs, width) && Spread(ys, height))
  }

  lemma GatheredNext(locations: seq<Point>, n: nat, xs: seq<int>, ys: seq<int>, width: int, height: int)
    requires GatheredTo(locations, n, xs, ys, width, height) && n < |locations|
    ensures var (tx, ty) := locations[|locations| - n - 1];
      if OutOf(xs, tx, width) || OutOf(ys, ty, height) then
        width >= 0 && height >= 0 ==> n > 0 && LongestFit(locations, n, width, height)
      else GatheredTo(locations, n + 1, [tx] + xs, [ty] + ys, width, height)
  {
    if width >= 0 && height >= 0 {
      GatherNext(locations, n, width, height);
    }
  }

  lemma AllGathered(locations: seq<Point>, xs: seq<int>, ys: seq<int>, width: int, height: int)
    requires GatheredTo(locations, |locations|, xs, ys, width, height) && width >= 0 && height >= 0
    ensures LongestFit(locations, |locations|, width, height)
  {
    FitIsSpread(locations, |locations|, width, height);
  }

  /** The last `n` locations in the middle of a rectangle, moved to where nothing is negative. */
  function GuessOf(locations: seq<Point>, n: nat, width: int, height: int): Guess
    requires n <= |locations| && locations != []
  {
    var (xs, ys) := (Xs(locations, n), Ys(locations, n));
    var x := Least(xs) - (width - (Greatest(xs) - Least(xs))) / 2;
    var y := Least(ys) - (height - (Greatest(ys) - Least(ys))) / 2;
    Guess(if x > 0 then x else 0, if y > 0 then y else 0, width, height)
  }

  /** The rectangle covers every location it was made from, when none of them is negative. */
  lemma GuessCovers(locations: seq<Point>, n: nat, width: int, height: int, i: nat)
    requires 0 < n <= |locations| && Fit(locations, n, width, height) && |locations| - n <= i < |locations|
    requires forall k | |locations| - n <= k < |locations| :: locations[k].0 >= 0 && locations[k].1 >= 0
    ensures Covers(GuessOf(locations, n, width, height), locations[i])
  {
    FitIsSpread(locations, n, width, height);
    Gathered(locations, n, i);
    Extremes(Xs(locations, n));
    Extremes(Ys(locations, n));
    var left := GatheredX(locations, n, Least(Xs(locations, n)));
    var top := GatheredY(locations, n, Least(Ys(locations, n)));
  }

  /** From `x` on, `size` has what is from `least` to `greatest` in its middle, or begins at 0 if that would be less. */
  predicate Middle(x: int, size: int, least: int, greatest: int) {
    if x > 0 then 0 <= 2 * x + size - (least + greatest) <= 1 else x == 0 && size >= least + greatest
  }

  /** All of the last `n` locations lie between `i` and `j` of them from left to right. */
  predicate Leftmost(locations: seq<Point>, n: nat, i: nat, j: nat) {
    && n <= |locations| && |locations| - n <= i < |locations| && |locations| - n <= j < |locations|
    && forall k | |locations| - n <= k < |locations| :: locations[i].0 <= locations[k].0 <= locations[j].0
  }

  predicate Topmost(locations: seq<Point>, n: nat, i: nat, j: nat) {
    && n <= |locations| && |locations| - n <= i < |locations| && |locations| - n <= j < |locations|
    && forall k | |locations| - n <= k < |locations| :: locations[i].1 <= locations[k].1 <= locations[j].1
  }

  /** The last `n` locations are in the middle of the rectangle both ways. */
  ghost predicate InMiddle(locations: seq<Point>, n: nat, g: Guess) {
    && (forall i: nat, j: nat | Leftmost(locations, n, i, j) :: Middle(g.x, g.width, locations[i].0, locations[j].0))
    && forall i: nat, j: nat | Topmost(locations, n, i, j) :: Middle(g.y, g.height, locations[i].1, locations[j].1)
  }

  lemma {:induction false} ExtremeX(locations: seq<Point>, n: nat, i: nat, j: nat)
    requires Leftmost(locations, n, i, j) && n > 0
    ensures locations[i].0 == Least(Xs(locations, n)) && locations[j].0 == Greatest(Xs(locations, n))
  {
    Extremes(Xs(locations, n));
    Gathered(locations, n, i);
    Gathered(locations, n, j);
    var left := GatheredX(locations, n, Least(Xs(locations, n)));
    var right := GatheredX(locations, n, Greatest(Xs(locations, n)));
  }

  lemma {:induction false} ExtremeY(locations: seq<Point>, n: nat, i: nat, j: nat)
    requires Topmost(locations, n, i, j) && n > 0
    ensures locations[i].1 == Least(Ys(locations, n)) && locations[j].1 == Greatest(Ys(locations, n))
  {
    Extremes(Ys(locations, n));
    Gathered(locations, n, i);
    Gathered(locations, n, j);
    var top := GatheredY(locations, n, Least(Ys(locations, n)));
    var bottom := GatheredY(locations, n, Greatest(Ys(locations, n)));
  }

  lemma GuessInMiddle(locations: seq<Point>, n: nat, width: int, height: int)
    requires 0 < n <= |locations|
    ensures InMiddle(locations, n, GuessOf(locations, n, width, height))
  {
    var g := GuessOf(locations, n, width, height);
    forall i: nat, j: nat | Leftmost(locations, n, i, j)
      ensures Middle(g.x, g.width, locations[i].0, locations[j].0)
    {
      ExtremeX(locations, n, i, j);
    }
    forall i: nat, j: nat | Topmost(locations, n, i, j)
      ensures Middle(g.y, g.height, locations[i].1, locations[j].1)
    {
      ExtremeY(locations, n, i, j);
    }
  }

  class TrayBase {
    var locations: seq<Point>
    var guess: Guess

    constructor ()
      ensures locations == [] && guess == UNSET_GUESS
    {
      locations, guess := [], UNSET_GUESS;
    }

    /** The loop: from the last location back to the first that does not fit. */
    method Gather(x: int, y: int, width: int, height: int) returns (xs: seq<int>, ys: seq<int>, n: nat)
      requires Repeats(locations, (x, y))
      ensures n <= |locations| && xs == Xs(locations, n) && ys == Ys(locations, n)
      ensures width >= 0 && height >= 0 ==> n > 0 && LongestFit(locations, n, width, height)
    {
      xs, ys, n := [x], [y], 0;
      while n < |locations|
        invariant GatheredTo(locations, n, xs, ys, width, height)
      {
        GatheredNext(locations, n, xs, ys, width, height);
        var (tx, ty) := locations[|locations| - n - 1];
        if OutOf(xs, tx, width) || OutOf(ys, ty, height) {
          return;
        }
        xs, ys, n := [tx] + xs, [ty] + ys, n + 1;
      }
      if width >= 0 && height >= 0 {
        AllGathered(locations, xs, ys, width, height);
      }
    }

    /**
     * recalculate_geometry.  The result tells whether the guess changed; an error
     * is the failed assertion, which takes a negative width or height.
     */
    method RecalculateGeometry(x: int, y: int, width: int, height: int) returns (r: Result<bool, string>)
      modifies this
      ensures locations == if Repeats(old(locations), (x, y)) then old(locations) else Recorded(old(locations), (x, y))
      ensures Repeats(old(locations), (x, y)) ==> r == Ok(false) && guess == Before(old(guess), x, y, width, height)
      ensures !Repeats(old(locations), (x, y)) ==> (r.Ok? <==> width >= 0 && height >= 0)
      ensures !Repeats(old(locations), (x, y)) && r.Ok? ==>
        (r.value <==> guess != Before(old(guess), x, y, width, height)) && IsGuess(locations, width, height, guess)
    {
      if guess == UNSET_GUESS {
        guess := Guess(x, y, width, height);
      }
      if Repeats(locations, (x, y)) {
        return Ok(false);
      }
      locations := Recorded(locations, (x, y));
      var xs, ys, n := Gather(x, y, width, height);
      var minx, miny, maxx, maxy := Least(xs), Least(ys), Greatest(xs), Greatest(ys);
      var padx := width - (maxx - minx);
      var pady := height - (maxy - miny);
      if width >= 0 && height >= 0 {
        FitIsSpread(locations, n, width, height);
      }
      if padx < 0 || pady < 0 {
        return Err("assertion failed");
      }
      minx := minx - padx / 2;
      miny := miny - pady / 2;
      var oldgeom := guess;
      guess := Guess(if minx > 0 then minx else 0, if miny > 0 then miny else 0, width, height);
      assert LongestFit(locations, n, width, height) && guess == GuessOf(locations, n, width, height);
      GuessInMiddle(locations, n, width, height);
      return Ok(guess != oldgeom);
    }
  }

  /** The guess a call starts from. */
  function Before(guess: Guess, x: int, y: int, width: int, height: int): Guess {
    if guess == UNSET_GUESS then Guess(x, y, width, height) else guess
  }

  /** The guess has the longest run of last locations that fit together in its middle. */
  ghost predicate IsGuess(locations: seq<Point>, width: int, height: int, guess: Guess) {
    && guess.width == width && guess.height == height
    && exists n: nat ::
         0 < n <= |locations| && LongestFit(locations, n, width, height) && InMiddle(locations, n, guess)
  }
}
