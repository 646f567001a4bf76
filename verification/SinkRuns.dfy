/** What the queue controller keeps over every run, and how fast it settles. */
module SinkRuns {
  import opened SinkSpec

  predicate InRange(s: Sink) {
    50 <= s.max <= 1000 && 0 <= s.min <= 950
  }

  /** The level the maximum comes to in the end: a refill draws it higher by twice the underrun level. */
  function Goal(c: Settings, target: int, refill: bool): int {
    Min(if refill then target + 2 * c.underrunMinLevel else target, 1000)
  }

  lemma TargetAtLeast(c: Settings, s: Sink, now: real)
    ensures TargetOf(c, s, now) >= 50
  {
  }

  lemma SetMaxInRange(c: Settings, s: Sink, now: real, free: bool)
    requires InRange(s)
    ensures InRange(SetMax(c, s, now, free)) && SetMax(c, s, now, free).min == s.min
  {
    TargetAtLeast(c, s, now);
  }

  lemma StepInRange(c: Settings, s: Sink, e: Event)
    requires InRange(s)
    ensures InRange(On(c, s, e))
  {
    match e
    case UnderrunAt(now, clt, freeMax, freeMin) =>
      SetMaxInRange(c, s.(lastUnderrun := now, refill := true), now, freeMax);
    case OverrunAt(now, freeMax) =>
      SetMaxInRange(c, s.(lastOverrun := now), now, freeMax);
    case DataAt(now, clt, after, freeMax, freeMin) =>
      SetMaxInRange(c, s.(levels := Pushed(s.levels, (now, clt))), now, freeMax);
    case QueueRuns =>
  }

  /** Whatever happens, in whatever order and at whatever times, both limits stay in their ranges. */
  lemma {:induction false} EveryRun(c: Settings, s: Sink, events: seq<Event>)
    requires InRange(s)
    ensures InRange(Run(c, s, events))
    decreases |events|
  {
    if events != [] {
      StepInRange(c, s, events[0]);
      EveryRun(c, On(c, s, events[0]), events[1..]);
    }
  }

  /** What else every event keeps: a refill goes on until a level is known, and overruns count two seconds apart. */
  ghost predicate Orderly(s: Sink) {
    && (s.levels == [] ==> s.refill)
    && |s.levels| <= MAXLEN && |s.overruns| <= MAXLEN
    && (forall i | 0 < i < |s.overruns| :: s.overruns[i] - s.overruns[i - 1] > 2.0)
    && (s.overruns != [] ==> s.overruns[|s.overruns| - 1] == s.lastOverrun)
  }

  lemma OverrunCounted(s: Sink, t: Sink, now: real)
    requires Orderly(s) && now - s.lastOverrun > 2.0
    requires t.overruns == Pushed(s.overruns, now) && t.lastOverrun == now
    requires t.levels == s.levels && t.refill == s.refill
    ensures Orderly(t)
  {
    assert forall i | 0 < i < |t.overruns| - 1 ::
      var k := if |s.overruns| < MAXLEN then i else i + 1;
      t.overruns[i] == s.overruns[k] && t.overruns[i - 1] == s.overruns[k - 1];
  }

  lemma StepOrderly(c: Settings, s: Sink, e: Event)
    requires Orderly(s)
    ensures Orderly(On(c, s, e))
  {
    if e.OverrunAt? && Counts(c, s, e.now) {
      OverrunCounted(s, On(c, s, e), e.now);
    }
  }

  /** A minimum that is set is 0, or during a refill at least 50 below the maximum of that moment. */
  lemma MinLeavesRoom(c: Settings, s: Sink, e: Event)
    requires InRange(s) && On(c, s, e).min != s.min
    ensures On(c, s, e).min == 0 || On(c, s, e).min <= On(c, s, e).max - 50
  {
    match e
    case UnderrunAt(now, clt, freeMax, freeMin) =>
      SetMaxInRange(c, s.(lastUnderrun := now, refill := true), now, freeMax);
    case OverrunAt(now, freeMax) =>
      SetMaxInRange(c, s.(lastOverrun := now), now, freeMax);
    case DataAt(now, clt, after, freeMax, freeMin) =>
      SetMaxInRange(c, s.(levels := Pushed(s.levels, (now, clt))), now, freeMax);
    case QueueRuns =>
  }

  // The maximum alone may fall below the minimum

  /** A maximum that may be set, and is wanted below the minimum and far enough from where it is. */
  predicate WantedPast(c: Settings, s: Sink, now: real, free: bool) {
    && free && now - s.lastMaxUpdate >= 1.0
    && var wanted := WantedMax(c, s.max, TargetOf(c, s, now), s.refill);
       wanted < s.min && s.max - wanted > Max(50, LevelRange(s.levels, now, 0.0) / 2)
  }

  /** An overrun that counts and wants it so; or a buffer that does, when the minimum may not be set. */
  predicate LowersPast(c: Settings, s: Sink, e: Event) {
    match e
    case OverrunAt(now, freeMax) => Counts(c, s, now) && WantedPast(c, s.(lastOverrun := now), now, freeMax)
    case DataAt(now, clt, _, freeMax, freeMin) =>
      && WantedPast(c, s.(levels := Pushed(s.levels, (now, clt))), now, freeMax)
      && (now - s.lastMinUpdate < 1.0 || !freeMin)
    case _ => false
  }

  lemma SetMaxFalls(c: Settings, s: Sink, now: real, free: bool)
    requires InRange(s)
    ensures s.min <= s.max ==> (SetMax(c, s, now, free).max < s.min <==> WantedPast(c, s, now, free))
  {
  }

  /** Exactly when an event leaves the maximum below the minimum; an underrun never does. */
  lemma FallsBelowExactly(c: Settings, s: Sink, e: Event)
    requires InRange(s) && s.min <= s.max
    ensures On(c, s, e).max < On(c, s, e).min <==> LowersPast(c, s, e)
  {
    match e
    case UnderrunAt(now, clt, freeMax, freeMin) =>
      SetMaxInRange(c, s.(lastUnderrun := now, refill := true), now, freeMax);
    case OverrunAt(now, freeMax) =>
      SetMaxFalls(c, s.(lastOverrun := now), now, freeMax);
    case DataAt(now, clt, after, freeMax, freeMin) =>
      SetMaxInRange(c, s.(levels := Pushed(s.levels, (now, clt))), now, freeMax);
      SetMaxFalls(c, s.(levels := Pushed(s.levels, (now, clt))), now, freeMax);
    case QueueRuns =>
  }

  const DEFAULTS := Settings(50, 150, 2000)

  const DATA := DataAt(10.0, 20, 200, true, true)

  /** The default settings with a queue of 248 ms: the first buffer starts and ends a refill. */
  lemma Refilled() returns (s: Sink)
    ensures s == On(DEFAULTS, New(248, 9.0), DATA)
    ensures s == New(248, 9.0).(max := 299, min := 150, refill := false, levels := [(10.0, 20)],
                                lastMaxUpdate := 10.0, lastMinUpdate := 10.0)
  {
    s := On(DEFAULTS, New(248, 9.0), DATA);
    FewLevels([(10.0, 20)], 10.0, 0.0);
    FewLevels([(10.0, 20)], 10.0, 2.0);
    assert TargetMax(DEFAULTS, 0, 0, 0) == 50;
  }

  /** With no spread to allow for, an overrun halves the maximum towards 50. */
  lemma OverrunHalves(s: Sink, now: real)
    requires |s.levels| == 1 && !s.starting && !s.refill && now >= s.startTime + 2.0
    requires now - s.lastMaxUpdate >= 1.0 && now - s.lastOverrun > 2.0 && 150 < s.max <= 1000
    ensures On(DEFAULTS, s, OverrunAt(now, true)) ==
      s.(max := (s.max + 50) / 2, lastMaxUpdate := now, lastOverrun := now, overruns := Pushed(s.overruns, now))
  {
    FewLevels(s.levels, now, 0.0);
    var olm := CountSince(s.overruns, now);
    assert TargetMax(DEFAULTS, 0, olm, Percent(now, now)) == 50;
  }

  /** Two overruns after a refill leave the maximum below the minimum. */
  lemma MaximumMayFallFirst() returns (events: seq<Event>)
    ensures var s := Run(DEFAULTS, New(248, 9.0), events); s.max == 112 && s.min == 150
  {
    var s1 := Refilled();
    var s2 := On(DEFAULTS, s1, QueueRuns);
    var s3 := On(DEFAULTS, s2, OverrunAt(12.0, true));
    OverrunHalves(s2, 12.0);
    var s4 := On(DEFAULTS, s3, OverrunAt(15.0, true));
    OverrunHalves(s3, 15.0);
    events := [];
    assert Run(DEFAULTS, s4, events) == s4;
    events := RunBefore(DEFAULTS, s3, OverrunAt(15.0, true), events);
    events := RunBefore(DEFAULTS, s2, OverrunAt(12.0, true), events);
    events := RunBefore(DEFAULTS, s1, QueueRuns, events);
    events := RunBefore(DEFAULTS, New(248, 9.0), DATA, events);
  }

  lemma RunBefore(c: Settings, s: Sink, e: Event, rest: seq<Event>) returns (events: seq<Event>)
    ensures events == [e] + rest && Run(c, s, events) == Run(c, On(c, s, e), rest)
  {
    events := [e] + rest;
    assert events[1..] == rest;
  }

  lemma FewLevels(levels: seq<(real, int)>, now: real, mintime: real)
    requires |levels| == 1
    ensures LevelRange(levels, now, mintime) == 0
  {
    assert levels[1..] == [];
    assert |Recent(levels, now, mintime, 10.0)| <= 1;
  }

  // Settling

  /**
   * A change of the maximum starts more than 50 away from the goal and halves the
   * distance, just so unless the goal is the cap of a second.
   */
  lemma ChangeHalves(c: Settings, max: int, target: int, refill: bool, lrange: nat)
    requires max <= 1000 && NextMax(max, WantedMax(c, max, target, refill), lrange) != max
    ensures var next, goal := NextMax(max, WantedMax(c, max, target, refill), lrange), Goal(c, target, refill);
      && next <= 1000 && Abs(max - goal) > 50 && 2 * (Abs(next - goal) - 1) <= Abs(max - goal) - 1
      && (goal < 1000 ==> 0 <= max + goal - 2 * next <= 1)
  {
  }

  lemma MoveIsRight(c: Settings, max: int, target: int, refill: bool, lrange: nat)
    requires max <= 1000
    ensures var next, goal := NextMax(max, WantedMax(c, max, target, refill), lrange), Goal(c, target, refill);
      if next != max then
        2 * (Abs(next - goal) - 1) <= Abs(max - goal) - 1 && (goal < 1000 ==> 0 <= max + goal - 2 * next <= 1)
      else Abs(max - goal) <= 2 * Max(50, lrange / 2) + 1
  {
  }

  /** What `set_max_level` brings the maximum to. */
  predicate Settles(c: Settings, s: Sink, t: Sink, now: real, free: bool) {
    var goal := Goal(c, TargetOf(c, s, now), s.refill);
    if t.max != s.max
    then
      && free && now - s.lastMaxUpdate >= 1.0 && 2 * (Abs(t.max - goal) - 1) <= Abs(s.max - goal) - 1
      && (goal < 1000 ==> 0 <= s.max + goal - 2 * t.max <= 1)
    else free && now - s.lastMaxUpdate >= 1.0 ==>
      Abs(s.max - goal) <= 2 * Max(50, LevelRange(s.levels, now, 0.0) / 2) + 1
  }

  /**
   * A change brings the maximum half way to its goal, or further to the cap; and when
   * none is made though one may be, the maximum is near the goal already.
   */
  lemma SetMaxSettles(c: Settings, s: Sink, now: real, free: bool)
    requires s.max <= 1000
    ensures Settles(c, s, SetMax(c, s, now, free), now, free)
  {
    MoveIsRight(c, s.max, TargetOf(c, s, now), s.refill, LevelRange(s.levels, now, 0.0));
  }

  /** The sink `set_max_level` works on when `e` calls it. */
  function AtSetMax(s: Sink, e: Event): Sink {
    match e
    case UnderrunAt(now, _, _, _) => s.(lastUnderrun := now, refill := true)
    case OverrunAt(now, _) => s.(lastOverrun := now)
    case DataAt(now, clt, _, _, _) => s.(levels := Pushed(s.levels, (now, clt)))
    case QueueRuns => s
  }

  predicate CallsSetMax(c: Settings, s: Sink, e: Event) {
    match e
    case UnderrunAt(now, clt, _, _) => StartsRefill(c, s, now, clt)
    case OverrunAt(now, _) => Counts(c, s, now)
    case DataAt(_, _, _, _, _) => true
    case QueueRuns => false
  }

  /** What a call of `set_max_level` goes by: the spread, the target made of it and of the overruns, and the refill. */
  datatype Inputs = Inputs(lrange: nat, target: int, refill: bool)

  function InputsOf(c: Settings, s: Sink, now: real): Inputs {
    Inputs(LevelRange(s.levels, now, 0.0), TargetOf(c, s, now), s.refill)
  }

  /** Every call of `set_max_level` in the run goes by the same inputs. */
  predicate Steady(c: Settings, s: Sink, events: seq<Event>, i: Inputs)
    decreases |events|
  {
    events == [] || (
      && (CallsSetMax(c, s, events[0]) ==> InputsOf(c, AtSetMax(s, events[0]), events[0].now) == i)
      && Steady(c, On(c, s, events[0]), events[1..], i))
  }

  /** How many events of the run change the maximum. */
  function Changes(c: Settings, s: Sink, events: seq<Event>): nat
    decreases |events|
  {
    if events == [] then 0
    else (if On(c, s, events[0]).max != s.max then 1 else 0) + Changes(c, On(c, s, events[0]), events[1..])
  }

  lemma StepSettles(c: Settings, s: Sink, e: Event, i: Inputs)
    requires s.max <= 1000 && On(c, s, e).max != s.max
    requires CallsSetMax(c, s, e) ==> InputsOf(c, AtSetMax(s, e), e.now) == i
    ensures var next, goal := On(c, s, e).max, Goal(c, i.target, i.refill);
      next <= 1000 && Abs(s.max - goal) > 50 && 2 * (Abs(next - goal) - 1) <= Abs(s.max - goal) - 1
  {
    assert On(c, s, e).max == NextMax(s.max, WantedMax(c, s.max, i.target, i.refill), i.lrange);
    ChangeHalves(c, s.max, i.target, i.refill, i.lrange);
  }

  function Pow2(n: nat): nat {
    if n == 0 then 1 else 2 * Pow2(n - 1)
  }

  /** `n` changes are few for a distance `d`. */
  predicate Few(n: nat, d: int) {
    n > 0 ==> 50 * Pow2(n - 1) <= d - 1
  }

  lemma OneMore(n: nat, next: int, d: int)
    requires Few(n, next) && d > 50 && 2 * (next - 1) <= d - 1
    ensures Few(n + 1, d)
  {
  }

  /** In a steady run of any length the changes are at most logarithmic in the initial distance. */
  lemma {:induction false} FewChanges(c: Settings, s: Sink, events: seq<Event>, i: Inputs)
    requires s.max <= 1000 && Steady(c, s, events, i)
    ensures Few(Changes(c, s, events), Abs(s.max - Goal(c, i.target, i.refill)))
    decreases |events|
  {
    if events != [] {
      var next, goal := On(c, s, events[0]), Goal(c, i.target, i.refill);
      var rest := Changes(c, next, events[1..]);
      if next.max == s.max {
        FewChanges(c, next, events[1..], i);
        assert Changes(c, s, events) == rest;
      } else {
        StepSettles(c, s, events[0], i);
        FewChanges(c, next, events[1..], i);
        assert Changes(c, s, events) == rest + 1;
        OneMore(rest, Abs(next.max - goal), Abs(s.max - goal));
      }
    }
  }

  /** From within its range the maximum changes at most five times in a steady run, refilling or not. */
  lemma {:induction false} FiveChanges(c: Settings, s: Sink, events: seq<Event>, i: Inputs)
    requires InRange(s) && i.target >= 50 && Steady(c, s, events, i)
    ensures Changes(c, s, events) <= 5
  {
    var n := Changes(c, s, events);
    if n > 5 {
      FewChanges(c, s, events, i);
      PowGrows(5, n - 1);
    }
  }

  lemma {:induction false} PowGrows(m: nat, n: nat)
    requires m <= n
    ensures Pow2(m) <= Pow2(n)
    decreases n - m
  {
    if m < n {
      PowGrows(m + 1, n);
    }
  }
}
