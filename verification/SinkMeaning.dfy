/** What the numbers of the queue controller mean, said apart from how they are computed. */
module SinkMeaning {
  import opened SinkSpec

  /** Which recorded levels are recent is decided of each by itself, and their order is kept. */
  lemma {:induction false} RecentJoins(a: seq<(real, int)>, b: seq<(real, int)>, now: real, mintime: real,
                                       maxtime: real)
    ensures Recent(a + b, now, mintime, maxtime) == Recent(a, now, mintime, maxtime) + Recent(b, now, mintime, maxtime)
    decreases |a|
  {
    if a == [] {
      assert a + b == b && Recent(a, now, mintime, maxtime) == [];
      assert [] + Recent(b, now, mintime, maxtime) == Recent(b, now, mintime, maxtime);
    } else {
      assert (a + b)[1..] == a[1..] + b;
      RecentJoins(a[1..], b, now, mintime, maxtime);
      var (x, y) := (Recent(a[1..], now, mintime, maxtime), Recent(b, now, mintime, maxtime));
      assert [a[0].1] + (x + y) == ([a[0].1] + x) + y;
    }
  }

  lemma {:induction false} OneRecent(t: real, v: int, now: real, mintime: real, maxtime: real)
    ensures Recent([(t, v)], now, mintime, maxtime) == if now - t >= mintime && now - t <= maxtime then [v] else []
  {
    assert [(t, v)][1..] == [];
  }

  /** So are the overruns of the last minute. */
  lemma {:induction false} CountJoins(a: seq<real>, b: seq<real>, now: real)
    ensures CountSince(a + b, now) == CountSince(a, now) + CountSince(b, now)
    decreases |a|
  {
    if a == [] {
      assert a + b == b;
    } else {
      assert (a + b)[1..] == a[1..] + b;
      CountJoins(a[1..], b, now);
    }
  }

  lemma {:induction false} OneCounts(t: real, now: real)
    ensures CountSince([t], now) == if now < t + 60.0 then 1 else 0
  {
    assert [t][1..] == [];
  }

  /** The percentage falls from 100 at an overrun to 0 two seconds later, and is within one of the straight line. */
  lemma PercentFalls(lastOverrun: real, now: real)
    requires now >= lastOverrun
    ensures Percent(lastOverrun, lastOverrun) == 100
    ensures now - lastOverrun >= 2.0 ==> Percent(lastOverrun, now) == 0
    ensures now - lastOverrun <= 2.0 ==>
      Percent(lastOverrun, now) as real <= 100.0 - 50.0 * (now - lastOverrun) < Percent(lastOverrun, now) as real + 1.0
  {
  }

  /**
   * The target is so many hundredths of the spread: all of it, the margin, 20 more
   * for each overrun of the last minute up to 100, and less while one is fresh.  It
   * is right to a millisecond, and at least 50.
   */
  lemma TargetIsShare(c: Settings, lrange: nat, olm: nat, pct: nat)
    ensures var (target, percent) := (TargetMax(c, lrange, olm, pct), 100 + c.margin + Min(100, 20 * olm) - pct);
      && target >= 50
      && (target > 50 ==> -100 < 100 * target - lrange * percent < 100)
      && (target == 50 ==> lrange * percent < 5100)
  {
    var more := 100 + c.margin + Min(100, olm * 20);
    var all, less := lrange * more, pct * lrange;
    assert 100 * (all / 100) <= all < 100 * (all / 100) + 100;
    assert 100 * (less / 100) <= less < 100 * (less / 100) + 100;
    assert all - less == lrange * (more - pct) by { Distribute(lrange, more, pct); }
  }

  lemma Distribute(a: int, b: int, c: int)
    ensures a * b - c * a == a * (b - c)
  {
  }
}
