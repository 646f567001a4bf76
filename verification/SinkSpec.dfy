/** How the audio sink chooses the queue's maximum and minimum times, in milliseconds. */
module SinkSpec {
  /** The settings, from the environment: each is clamped when it is read. */
  datatype Settings = Settings(margin: nat, underrunMinLevel: nat, gracePeriod: int)

  /** `max` and `min` are the queue's max-size-time and min-threshold-time; times are in seconds. */
  datatype Sink = Sink(
    max: int, min: int, refill: bool, levels: seq<(real, int)>, overruns: seq<real>,
    lastUnderrun: real, lastOverrun: real, lastMaxUpdate: real, lastMinUpdate: real, starting: bool, startTime: real)

  /** A new sink refills, and its queue starts at the configured maximum. */
  function New(queueTime: int, now: real): Sink {
    Sink(queueTime, 0, true, [], [], 0.0, 0.0, now, now, true, 0.0)
  }

  const MAXLEN := 100

  /** append on a deque of at most MAXLEN. */
  function Pushed<T>(s: seq<T>, x: T): (r: seq<T>)
    ensures |s| <= MAXLEN ==> |r| <= MAXLEN && |r| > 0 && r[|r| - 1] == x
    ensures |s| < 100 ==> r == s + [x]
    ensures |s| == 100 ==> r == s[1..] + [x]
  {
    if |s| < MAXLEN then s + [x] else s[|s| - MAXLEN + 1..] + [x]
  }

  function Recent(levels: seq<(real, int)>, now: real, mintime: real, maxtime: real): (r: seq<int>)
    ensures forall v :: v in r ==> exists t: real :: (t, v) in levels && mintime <= now - t <= maxtime
  {
    if levels == [] then []
    else
      var (t, v) := levels[0];
      var rest := Recent(levels[1..], now, mintime, maxtime);
      if mintime <= now - t <= maxtime then [v] + rest else rest
  }

  function Largest(s: seq<int>): (m: int)
    requires s != []
    ensures m in s && forall x | x in s :: x <= m
  {
    if |s| == 1 then s[0]
    else
      var m := Largest(s[1..]);
      assert forall x | x in s :: x == s[0] || x in s[1..];
      if s[0] > m then s[0] else m
  }

  function Smallest(s: seq<int>): (m: int)
    requires s != []
    ensures m in s && forall x | x in s :: m <= x
  {
    if |s| == 1 then s[0]
    else
      var m := Smallest(s[1..]);
      assert forall x | x in s :: x == s[0] || x in s[1..];
      if s[0] < m then s[0] else m
  }

  /** get_level_range: the spread of the recent levels, or 0 when there are fewer than ten. */
  function LevelRange(levels: seq<(real, int)>, now: real, mintime: real): (r: int)
    ensures r >= 0
    ensures var v := Recent(levels, now, mintime, 10.0);
      |v| >= 10 ==> (forall x, y | x in v && y in v :: y - x <= r) && exists x, y :: x in v && y in v && y - x == r
  {
    var v := Recent(levels, now, mintime, 10.0);
    if |v| >= 10 then
      assert Largest(v) in v && Smallest(v) in v;
      Largest(v) - Smallest(v)
    else 0
  }

  function Max(a: int, b: int): int {
    if a >= b then a else b
  }

  function Min(a: int, b: int): int {
    if a <= b then a else b
  }

  function Abs(a: int): int {
    if a >= 0 then a else -a
  }

  function CountSince(events: seq<real>, now: real): nat {
    if events == [] then 0 else (if now - events[0] < 60.0 then 1 else 0) + CountSince(events[1..], now)
  }

  /** From 100 down to 0 within two seconds after an overrun. */
  function Percent(lastOverrun: real, now: real): nat {
    var x := (lastOverrun + 2.0 - now) * 50.0;
    if x <= 0.0 then 0 else x.Floor
  }

  /** The level the maximum is drawn to. */
  function TargetMax(c: Settings, lrange: nat, olm: nat, pct: nat): int {
    Max(50, lrange * (100 + c.margin + Min(100, olm * 20)) / 100 - pct * lrange / 100)
  }

  /** Half way from the maximum to its target, more during a refill, and at most a second. */
  function WantedMax(c: Settings, max: int, target: int, refill: bool): int {
    Min((max + target) / 2 + (if refill then c.underrunMinLevel else 0), 1000)
  }

  /** The next maximum: the wanted one when it differs by enough. */
  function NextMax(max: int, wanted: int, lrange: nat): int {
    if Abs(max - wanted) <= Max(50, lrange / 2) then max else wanted
  }

  /** The level a sink's maximum is drawn to at `now`. */
  function TargetOf(c: Settings, s: Sink, now: real): int {
    TargetMax(c, LevelRange(s.levels, now, 0.0), CountSince(s.overruns, now), Percent(s.lastOverrun, now))
  }

  /** set_max_level; `free` is whether the level lock can be had. */
  function SetMax(c: Settings, s: Sink, now: real, free: bool): Sink {
    if now - s.lastMaxUpdate < 1.0 then s
    else
      var lrange := LevelRange(s.levels, now, 0.0);
      var target := TargetOf(c, s, now);
      var max := NextMax(s.max, WantedMax(c, s.max, target, s.refill), lrange);
      if max == s.max || !free then s else s.(max := max, lastMaxUpdate := now)
  }

  /** The minimum wanted: none, or during a refill enough to ride out the spread, but 50 below the maximum. */
  function WantedMin(c: Settings, s: Sink, now: real): int {
    if s.refill then Min(s.max - 50, Max(LevelRange(s.levels, now, 2.0) + 100, c.underrunMinLevel)) else 0
  }

  /** set_min_level. */
  function SetMin(c: Settings, s: Sink, now: real, free: bool): Sink {
    var wanted := WantedMin(c, s, now);
    if now - s.lastMinUpdate < 1.0 || s.min == wanted || !free then s
    else s.(min := wanted, lastMinUpdate := now)
  }

  predicate InGrace(c: Settings, s: Sink, now: real) {
    s.starting || 1000.0 * (now - s.startTime) < c.gracePeriod as real
  }

  /** An underrun that counts. */
  predicate StartsRefill(c: Settings, s: Sink, now: real, clt: int) {
    !InGrace(c, s, now) && now - s.lastUnderrun > 5.0 && s.min == 0 && clt < 10
  }

  /** An overrun that counts. */
  predicate Counts(c: Settings, s: Sink, now: real) {
    !InGrace(c, s, now) && now - s.lastOverrun > 2.0
  }

  /** queue_underrun, at level `clt`. */
  function Underrun(c: Settings, s: Sink, now: real, clt: int, freeMax: bool, freeMin: bool): Sink {
    if !StartsRefill(c, s, now, clt) then s
    else SetMin(c, SetMax(c, s.(lastUnderrun := now, refill := true), now, freeMax), now, freeMin)
  }

  /** queue_overrun: the maximum is set before the overrun is counted. */
  function Overrun(c: Settings, s: Sink, now: real, freeMax: bool): Sink {
    if !Counts(c, s, now) then s
    else
      var t := SetMax(c, s.(lastOverrun := now), now, freeMax);
      t.(overruns := Pushed(t.overruns, now))
  }

  /** add_data, when the buffer is pushed and the queue then stands at `clt`, and at `after` once the limits are set. */
  function AddData(c: Settings, s: Sink, now: real, clt: int, after: int, freeMax: bool, freeMin: bool): Sink {
    var recorded := s.(levels := Pushed(s.levels, (now, clt)));
    var t := SetMin(c, SetMax(c, recorded, now, freeMax), now, freeMin);
    if t.refill && 0 < t.min < after then t.(refill := false) else t
  }

  datatype Event =
    | UnderrunAt(now: real, clt: int, freeMax: bool, freeMin: bool)
    | OverrunAt(now: real, freeMax: bool)
    | DataAt(now: real, clt: int, after: int, freeMax: bool, freeMin: bool)
    | QueueRuns

  function On(c: Settings, s: Sink, e: Event): Sink {
    match e
    case UnderrunAt(now, clt, freeMax, freeMin) => Underrun(c, s, now, clt, freeMax, freeMin)
    case OverrunAt(now, freeMax) => Overrun(c, s, now, freeMax)
    case DataAt(now, clt, after, freeMax, freeMin) => AddData(c, s, now, clt, after, freeMax, freeMin)
    case QueueRuns => s.(starting := false)
  }

  function Run(c: Settings, s: Sink, events: seq<Event>): Sink
    decreases |events|
  {
    if events == [] then s else Run(c, On(c, s, events[0]), events[1..])
  }
}
