/** adjust_volume: the fade-in, whose steps are a fifteenth of the square root of what is missing. */
module VolumeRamp {
  function AbsReal(x: real): (r: real)
    ensures r >= 0.0
  {
    if x >= 0.0 then x else -x
  }

  /** `root` is the square root of `x`. */
  predicate IsRoot(root: real, x: real) {
    root >= 0.0 && root * root == x
  }

  /** One tick of the timer, from volume `cv`; `root` is the square root of the distance to the target. */
  function Tick(target: real, cv: real, root: real): real {
    var change := (if target - cv >= 0.0 then root else -root) / 15.0;
    if cv + change >= 0.0 then cv + change else 0.0
  }

  lemma Product(a: real, b: real, c: real)
    requires 0.0 <= a && b <= c
    ensures a * b <= a * c
  {
  }

  lemma Positive(a: real, b: real)
    requires a > 0.0 && b > 0.0
    ensures a * b > 0.0
  {
  }

  lemma Squares(a: real, b: real)
    requires 0.0 <= a < b
    ensures a * a < b * b
  {
    Positive(b - a, b + a);
    assert (b - a) * (b + a) == b * b - a * a;
  }

  lemma RootAtLeast(root: real, gap: real, low: real)
    requires IsRoot(root, gap) && low > 0.0 && gap >= low * low
    ensures root >= low
  {
    if root < low {
      Squares(root, low);
    }
  }

  lemma RootBelow(root: real, gap: real, high: real)
    requires IsRoot(root, gap) && high > 0.0 && gap < high * high
    ensures root < high
  {
    if root > high {
      Squares(high, root);
    }
  }

  lemma StepSquared(root: real)
    ensures 225.0 * ((root / 15.0) * (root / 15.0)) == root * root
    ensures 225.0 * ((-root / 15.0) * (-root / 15.0)) == root * root
  {
  }

  /** While the gap is a hundredth or more, a tick never overshoots and closes at least 1/150 of the scale. */
  lemma TickCloses(target: real, cv: real, root: real)
    requires target >= 0.0 && cv >= 0.0 && IsRoot(root, AbsReal(target - cv)) && AbsReal(target - cv) >= 0.01
    ensures var next := Tick(target, cv, root);
      && 225.0 * ((next - cv) * (next - cv)) == AbsReal(target - cv)
      && AbsReal(target - next) <= AbsReal(target - cv) - 1.0 / 150.0
      && (if cv <= target then cv < next <= target else target <= next < cv)
  {
    var gap := AbsReal(target - cv);
    RootAtLeast(root, gap, 0.1);
    Product(root, 0.1, root);
    assert root / 15.0 <= root * 0.1 <= gap;
    StepSquared(root);
  }

  /** The last tick starts within a hundredth of the target and ends within a third of that. */
  lemma LastTick(target: real, cv: real, root: real)
    requires target >= 0.0 && cv >= 0.0 && IsRoot(root, AbsReal(target - cv)) && AbsReal(target - cv) < 0.01
    ensures AbsReal(target - Tick(target, cv, root)) < 1.0 / 300.0
    ensures var next := Tick(target, cv, root);
      next >= 0.0 && (next > 0.0 ==> 225.0 * ((next - cv) * (next - cv)) == AbsReal(target - cv))
  {
    StepSquared(root);
    var gap := AbsReal(target - cv);
    RootBelow(root, gap, 0.1);
    var over := root - 1.0 / 15.0;
    var left := root * over;
    Leftover(root, over);
    assert left == gap - root / 15.0;
    var next := Tick(target, cv, root);
    assert -left <= target - next <= left || left <= target - next <= -left;
  }

  /** A number below 1/10 times what it has over 1/15: least half way, at -1/900. */
  lemma Leftover(root: real, over: real)
    requires 0.0 <= root < 0.1 && over == root - 1.0 / 15.0
    ensures -1.0 / 900.0 <= root * over < 1.0 / 300.0
  {
    var off := root - 1.0 / 30.0;
    Square(off);
    assert off * off == root * over + 1.0 / 900.0;
    if over > 0.0 {
      Product(over, root, 0.1);
    } else {
      Product(root, over, 0.0);
    }
  }

  lemma Square(x: real)
    ensures x * x >= 0.0
  {
  }

  /** The volumes of a fade, tick by tick, with the roots used. */
  ghost predicate Fade(target: real, volumes: seq<real>, roots: seq<real>) {
    && |volumes| == |roots| + 1 && target >= 0.0 && volumes[0] >= 0.0
    && forall i | 0 <= i < |roots| ::
         IsRoot(roots[i], AbsReal(target - volumes[i])) && volumes[i + 1] == Tick(target, volumes[i], roots[i])
  }

  /** Every tick but the last began a hundredth or more away. */
  ghost predicate GoesOn(target: real, volumes: seq<real>, n: nat) {
    n <= |volumes| && forall i | 0 <= i < n :: AbsReal(target - volumes[i]) >= 0.01
  }

  /** The gap shrinks tick by tick, and the volume stays on its side of the target. */
  lemma {:induction false} FadeCloses(target: real, volumes: seq<real>, roots: seq<real>, n: nat)
    requires Fade(target, volumes, roots) && GoesOn(target, volumes, n) && n < |volumes|
    ensures volumes[n] >= 0.0
    ensures AbsReal(target - volumes[n]) <= AbsReal(target - volumes[0]) - n as real / 150.0
    ensures if volumes[0] <= target then volumes[0] <= volumes[n] <= target else target <= volumes[n] <= volumes[0]
    decreases n
  {
    if n > 0 {
      FadeCloses(target, volumes, roots, n - 1);
      TickCloses(target, volumes[n - 1], roots[n - 1]);
    }
  }

  /**
   * The fade ends: no more ticks go on than 150 times the initial gap, and the
   * one that stops it leaves the volume within 1/300 of the target.
   */
  lemma FadeEnds(target: real, volumes: seq<real>, roots: seq<real>, n: nat)
    requires Fade(target, volumes, roots) && GoesOn(target, volumes, n) && n < |volumes|
    ensures n as real <= 150.0 * AbsReal(target - volumes[0])
    ensures n < |roots| && AbsReal(target - volumes[n]) < 0.01 ==> AbsReal(target - volumes[n + 1]) < 1.0 / 300.0
  {
    FadeCloses(target, volumes, roots, n);
    if n < |roots| && AbsReal(target - volumes[n]) < 0.01 {
      LastTick(target, volumes[n], roots[n]);
    }
  }

  /**
   * The volume element and its timer.  `ticks` counts the ticks since the start: each
   * that goes on closes at least 1/150 of the way, without overshooting.
   */
  class Ramp {
    var volume: real
    const targetVolume: real
    var timer: bool
    ghost var ticks: nat

    ghost predicate Valid()
      reads this
    {
      && 0.0 <= volume && 0.0 <= targetVolume
      && (timer ==> volume <= targetVolume && targetVolume - volume <= targetVolume - ticks as real / 150.0)
      && (!timer ==> AbsReal(targetVolume - volume) < 1.0 / 300.0)
    }

    constructor (target: real)
      requires target >= 0.0
      ensures Valid() && volume == 0.0 && targetVolume == target && timer && ticks == 0
    {
      volume, targetVolume, timer, ticks := 0.0, target, true, 0;
    }

    /**
     * One tick of the running timer, which goes on while the distance it started from
     * was not small; `Valid` bounds the ticks by 150 times the target, and has the
     * volume arrive.
     */
    method AdjustVolume(root: real) returns (again: bool)
      requires Valid() && timer && IsRoot(root, AbsReal(targetVolume - volume))
      modifies this
      ensures volume == Tick(targetVolume, old(volume), root)
      ensures Valid() && timer == again && ticks == old(ticks) + 1
      ensures again <==> AbsReal(targetVolume - old(volume)) >= 0.01
      ensures again ==> old(volume) < volume <= targetVolume && ticks as real <= 150.0 * targetVolume
    {
      var delta := targetVolume - volume;
      if AbsReal(delta) >= 0.01 {
        TickCloses(targetVolume, volume, root);
      } else {
        LastTick(targetVolume, volume, root);
      }
      ticks := ticks + 1;
      var change := (if delta >= 0.0 then root else -root) / 15.0;
      volume := if volume + change >= 0.0 then volume + change else 0.0;
      if AbsReal(delta) < 0.01 {
        timer := false;
        return false;
      }
      return true;
    }
  }
}
