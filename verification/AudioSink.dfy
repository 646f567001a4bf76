/**
 * The audio sink's queue controller.  Each method keeps `Valid` and says what it
 * does for the queue; `State() == ...` makes it the step `SinkRuns` reasons about.
 */
module AudioSinkQueue {
  import opened SinkSpec
  import opened SinkRuns

  /** `m` is the least that is at least `a` and `b`, or `cap` where that is less. */
  predicate IsLeast(a: int, b: int, cap: int, m: int) {
    m <= cap && if m < cap then a <= m && b <= m && (m == a || m == b) else a >= cap || b >= cap
  }

  class AudioSink {
    const settings: Settings
    const queueTime: int
    var queueMax: int
    var queueMin: int
    var refill: bool
    var levels: seq<(real, int)>
    var overrunEvents: seq<real>
    var lastUnderrun: real
    var lastOverrun: real
    var lastMaxUpdate: real
    var lastMinUpdate: real
    var starting: bool
    var startTime: real

    function State(): Sink
      reads this
    {
      Sink(queueMax, queueMin, refill, levels, overrunEvents, lastUnderrun, lastOverrun, lastMaxUpdate, lastMinUpdate,
           starting, startTime)
    }

    /** Both limits are in range when the configured one is, and the rest is in order. */
    ghost predicate Valid()
      reads this
    {
      (50 <= queueTime <= 1000 ==> InRange(State())) && Orderly(State())
    }

    /** The queue runs, and the time of grace after its start, in milliseconds, is over. */
    predicate Settled(now: real)
      reads this`starting, this`startTime
    {
      !starting && (now - startTime) * 1000.0 >= settings.gracePeriod as real
    }

    /** What an event keeps, of the state it finds. */
    lemma EventKept(e: Event)
      requires Valid()
      ensures 50 <= queueTime <= 1000 ==> InRange(On(settings, State(), e))
      ensures Orderly(On(settings, State(), e))
      ensures 50 <= queueTime <= 1000 && queueMin <= queueMax ==>
        var s, t := State(), On(settings, State(), e);
        (t.max < t.min <==> LowersPast(settings, s, e))
    {
      if 50 <= queueTime <= 1000 {
        StepInRange(settings, State(), e);
        if queueMin <= queueMax {
          FallsBelowExactly(settings, State(), e);
        }
      }
      StepOrderly(settings, State(), e);
    }

    lemma DataKept(now: real, clt: int, after: int, freeMax: bool, freeMin: bool)
      requires Valid()
      ensures var t := AddData(settings, State(), now, clt, after, freeMax, freeMin);
        && (50 <= queueTime <= 1000 ==> InRange(t)) && Orderly(t)
        && (50 <= queueTime <= 1000 && queueMin <= queueMax ==>
              (t.max < t.min <==> LowersPast(settings, State(), DataAt(now, clt, after, freeMax, freeMin))))
    {
      EventKept(DataAt(now, clt, after, freeMax, freeMin));
    }

    constructor (c: Settings, queueTime: int, now: real)
      ensures Valid() && settings == c && this.queueTime == queueTime
      ensures State() == New(queueTime, now)
    {
      settings, this.queueTime := c, queueTime;
      queueMax, queueMin, refill, levels, overrunEvents := queueTime, 0, true, [], [];
      lastUnderrun, lastOverrun, lastMaxUpdate, lastMinUpdate := 0.0, 0.0, now, now;
      starting, startTime := true, 0.0;
    }

    /** get_level_range, in one pass over the recorded levels. */
    method GetLevelRange(now: real, mintime: real) returns (r: int)
      ensures r == LevelRange(levels, now, mintime)
    {
      var filtered: seq<int> := [];
      var i := |levels|;
      while i > 0
        invariant 0 <= i <= |levels| && filtered == Recent(levels[i..], now, mintime, 10.0)
      {
        i := i - 1;
        var (t, v) := levels[i];
        assert levels[i..][0] == levels[i] && levels[i..][1..] == levels[i + 1..];
        if mintime <= now - t <= 10.0 {
          filtered := [v] + filtered;
        }
      }
      assert levels[0..] == levels;
      if |filtered| >= 10 {
        return Largest(filtered) - Smallest(filtered);
      }
      return 0;
    }

    /** The maximum wanted: half way to the spread with its margin, less while an overrun is fresh, more in a refill. */
    method WantedLevel(lrange: nat, now: real) returns (mst: int)
      requires lrange == LevelRange(levels, now, 0.0)
      ensures mst == WantedMax(settings, queueMax, TargetOf(settings, State(), now), refill)
    {
      var olm := CountSince(overrunEvents, now);
      var target := lrange * (100 + settings.margin + Min(100, olm * 20)) / 100;
      var pct := Percent(lastOverrun, now);
      target := Max(50, target - pct * lrange / 100);
      mst := (queueMax + target) / 2;
      if refill {
        mst := mst + settings.underrunMinLevel;
      }
      mst := Min(mst, 1000);
    }

    /**
     * A change brings the maximum half way to its goal, or further to the cap; and when
     * none is made though one may be, the maximum is near the goal already.
     */
    method SetMaxLevel(now: real, free: bool)
      modifies this`queueMax, this`lastMaxUpdate
      ensures State() == SetMax(settings, old(State()), now, free)
      ensures old(queueMax) <= 1000 ==> Settles(settings, old(State()), State(), now, free)
    {
      ghost var s := State();
      if s.max <= 1000 {
        SetMaxSettles(settings, s, now, free);
      }
      if now - lastMaxUpdate < 1.0 {
        return;
      }
      var lrange := GetLevelRange(now, 0.0);
      var mst := WantedLevel(lrange, now);
      if Abs(queueMax - mst) <= Max(50, lrange / 2) {
        return;
      }
      if !free {
        return;
      }
      queueMax := mst;
      lastMaxUpdate := now;
    }

    /** During a refill the minimum is the least level with 100 above the spread, if that leaves 50 to the maximum. */
    method SetMinLevel(now: real, free: bool)
      modifies this`queueMin, this`lastMinUpdate
      ensures State() == SetMin(settings, old(State()), now, free)
      ensures free && now - old(lastMinUpdate) >= 1.0 ==>
        if refill then IsLeast(LevelRange(levels, now, 2.0) + 100, settings.underrunMinLevel, queueMax - 50, queueMin)
        else queueMin == 0
      ensures queueMin != old(queueMin) ==> free && lastMinUpdate == now && now - old(lastMinUpdate) >= 1.0
    {
      var lrange := GetLevelRange(now, 2.0);
      if now - lastMinUpdate < 1.0 {
        return;
      }
      var mtt := 0;
      if refill {
        var mrange := Max(lrange + 100, settings.underrunMinLevel);
        mtt := Min(queueMax - 50, mrange);
      }
      if queueMin == mtt {
        return;
      }
      if !free {
        return;
      }
      queueMin := mtt;
      lastMinUpdate := now;
    }

    /**
     * An underrun never brings the maximum below the minimum.  It starts a refill exactly
     * if the queue is drained, has no minimum, and neither the start nor an underrun is recent.
     */
    method QueueUnderrun(now: real, clt: int, freeMax: bool, freeMin: bool)
      requires Valid()
      modifies this`lastUnderrun, this`refill, this`queueMax, this`lastMaxUpdate, this`queueMin, this`lastMinUpdate
      ensures State() == Underrun(settings, old(State()), now, clt, freeMax, freeMin)
      ensures Valid()
      ensures 50 <= queueTime <= 1000 && old(queueMin) <= old(queueMax) ==> queueMin <= queueMax
      ensures old(refill) ==> refill
      ensures !old(refill) ==>
        (refill <==> Settled(now) && now - old(lastUnderrun) > 5.0 && old(queueMin) == 0 && clt < 10)
    {
      EventKept(UnderrunAt(now, clt, freeMax, freeMin));
      if InGrace(settings, State(), now) {
        return;
      }
      if now - lastUnderrun > 5.0 {
        if queueMin == 0 && clt < 10 {
          lastUnderrun := now;
          refill := true;
          SetMaxLevel(now, freeMax);
          SetMinLevel(now, freeMin);
        }
      }
    }

    /**
     * An overrun leaves the maximum below the minimum exactly when it counts, and the
     * maximum may be set and is wanted there, far enough from where it is.
     */
    method QueueOverrun(now: real, freeMax: bool)
      requires Valid()
      modifies this`lastOverrun, this`overrunEvents, this`queueMax, this`lastMaxUpdate
      ensures State() == SinkSpec.Overrun(settings, old(State()), now, freeMax)
      ensures Valid()
      ensures 50 <= queueTime <= 1000 && old(queueMin) <= old(queueMax) ==>
        (queueMax < queueMin <==> LowersPast(settings, old(State()), OverrunAt(now, freeMax)))
      ensures overrunEvents ==
        if Settled(now) && now - old(lastOverrun) > 2.0 then Pushed(old(overrunEvents), now) else old(overrunEvents)
    {
      EventKept(OverrunAt(now, freeMax));
      if InGrace(settings, State(), now) {
        return;
      }
      if now - lastOverrun > 2.0 {
        lastOverrun := now;
        SetMaxLevel(now, freeMax);
        overrunEvents := Pushed(overrunEvents, now);
      }
    }

    /**
     * add_data after a buffer was pushed: the level is `clt`, and `after` when it is
     * read again.  A refill ends exactly when the level is past a minimum; the maximum
     * ends below the minimum exactly when it is wanted there and the minimum cannot follow.
     */
    method DataAdded(now: real, clt: int, after: int, freeMax: bool, freeMin: bool)
      requires Valid()
      modifies this`levels, this`refill, this`queueMax, this`lastMaxUpdate, this`queueMin, this`lastMinUpdate
      ensures refill <==> old(refill) && !(0 < queueMin < after)
      ensures State() == AddData(settings, old(State()), now, clt, after, freeMax, freeMin)
      ensures Valid() && levels == Pushed(old(levels), (now, clt))
      ensures 50 <= queueTime <= 1000 && old(queueMin) <= old(queueMax) ==>
        var e := DataAt(now, clt, after, freeMax, freeMin);
        (queueMax < queueMin <==> LowersPast(settings, old(State()), e))
    {
      DataKept(now, clt, after, freeMax, freeMin);
      levels := Pushed(levels, (now, clt));
      SetMaxLevel(now, freeMax);
      SetMinLevel(now, freeMin);
      if refill {
        if 0 < queueMin < after {
          refill := false;
        }
      }
    }
  }
}
