/** The condition for no false alarm is exact: where it fails, a prompt run has one. */
module KeepaliveSharp {
  import opened KeepaliveSpec
  import opened KeepaliveNetwork
  import opened KeepaliveSafety
  import opened KeepaliveRuns

  /** A prompt run leads from `start` to `n`. */
  ghost predicate Leads(start: Net, delay: nat, n: Net) {
    exists run, steps :: IsRun(run, steps, true, delay) && run[0] == start && run[|run| - 1] == n
  }

  lemma LeadsStart(start: Net, delay: nat)
    requires Connected(start)
    ensures Leads(start, delay, start)
  {
    assert IsRun([start], [], true, delay);
  }

  lemma LeadsNext(start: Net, delay: nat, n: Net, s: Step)
    requires Leads(start, delay, n) && Allowed(n, s, true, delay)
    ensures Leads(start, delay, Next(n, s))
  {
    var run, steps :| IsRun(run, steps, true, delay) && run[0] == start && run[|run| - 1] == n;
    RunGrows(run, steps, true, delay, s);
    assert (run + [Next(n, s)])[0] == start;
  }

  /**
   * One buffer of stream `l` has been sent at `since` and no echo of it arrives
   * before `limit`, however often the receiver's keepalive fires until then.
   */
  ghost predicate Waiting(n: Net, l: bool, since: int, limit: int, delay: nat) {
    var h := HalfOf(n, l);
    && h.sender.Enabled() && h.sender.sent == 1 && h.sender.echoed == 0 && h.sender.echoStart == since > 0
    && n.now <= limit && HalfOf(n, !l).link == Link([], [])
    && (forall p | p in h.link.audio + h.link.echoes :: limit <= p.due)
    && OnlyCheck(h.sender, n.now) && OnlyKeepalive(h.receiver, n.now)
    && limit <= NextKeepalive(h.receiver, limit) + delay
  }

  /** The sender's only armed timer, if any, is its check. */
  ghost predicate OnlyCheck(e: Endpoint, now: int) {
    && 0 <= e.checkTimer < e.nextTimer
    && forall id | id in e.timers ::
         id == e.checkTimer && id != 0 && e.timers[id].kind.CheckEcho? && now <= e.timers[id].due
  }

  /** The receiver's only armed timer, if any, is its keepalive. */
  ghost predicate OnlyKeepalive(e: Endpoint, now: int) {
    && e.Enabled() && 0 <= e.keepaliveTimer < e.nextTimer
    && forall id | id in e.timers ::
         id == e.keepaliveTimer && id != 0 && e.timers[id].kind.SendKeepalive? && now <= e.timers[id].due
  }

  function NextCheck(e: Endpoint, limit: int): int {
    if e.checkTimer in e.timers then e.timers[e.checkTimer].due else limit
  }

  function NextKeepalive(e: Endpoint, limit: int): int {
    if e.keepaliveTimer in e.timers then e.timers[e.keepaliveTimer].due else limit
  }

  lemma CheckPasses(e: Endpoint, now: int)
    requires e.Enabled() && OnlyCheck(e, now) && e.checkTimer in e.timers
    ensures var f := TimerFires(e, e.checkTimer, true, now);
      && f.Enabled() && f.sent == e.sent && f.echoed == e.echoed && f.echoStart == e.echoStart
      && SameSettings(e, f) && OnlyCheck(f, now)
      && (f.checkTimer in f.timers ==> f.timers[f.checkTimer].due == now + 1000)
  {
    assert forall id :: id !in e.timers - {e.checkTimer};
  }

  lemma KeepalivePasses(e: Endpoint, now: int)
    requires OnlyKeepalive(e, now) && e.keepaliveTimer in e.timers
    ensures var f := TimerFires(e, e.keepaliveTimer, false, now);
      && SameSettings(e, f) && OnlyKeepalive(f, now)
      && (f.keepaliveTimer in f.timers ==> f.timers[f.keepaliveTimer].due == now + e.interval * 1000)
  {
    assert forall id :: id !in e.timers - {e.keepaliveTimer};
  }

  lemma WaitAllowed(n: Net, l: bool, since: int, limit: int, delay: nat, t: int)
    requires Waiting(n, l, since, limit, delay) && n.now <= t <= limit
    requires t <= NextCheck(HalfOf(n, l).sender, limit) && t <= NextKeepalive(HalfOf(n, l).receiver, limit)
    ensures Allowed(n, Wait(t), true, delay) && Waiting(Next(n, Wait(t)), l, since, limit, delay)
  {
    var h := HalfOf(n, l);
    assert forall p | p in h.link.audio || p in h.link.echoes :: p in h.link.audio + h.link.echoes;
  }

  lemma CheckFiresThen(n: Net, l: bool, since: int, limit: int, delay: nat)
    requires Waiting(n, l, since, limit, delay)
    requires var e := HalfOf(n, l).sender; e.checkTimer in e.timers && e.timers[e.checkTimer].due == n.now
    ensures Possible(HalfOf(n, l), CheckFires(true))
    ensures var m := Next(n, Stream(l, CheckFires(true)));
      && Waiting(m, l, since, limit, delay)
      && HalfOf(m, l).link == HalfOf(n, l).link && HalfOf(m, l).receiver == HalfOf(n, l).receiver
      && SameSettings(HalfOf(n, l).sender, HalfOf(m, l).sender)
      && (NextCheck(HalfOf(m, l).sender, limit) == n.now + 1000 || NextCheck(HalfOf(m, l).sender, limit) == limit)
  {
    CheckPasses(HalfOf(n, l).sender, n.now);
  }

  lemma KeepaliveFiresThen(n: Net, l: bool, since: int, limit: int, delay: nat)
    requires Waiting(n, l, since, limit, delay)
    requires var e := HalfOf(n, l).receiver; e.keepaliveTimer in e.timers && e.timers[e.keepaliveTimer].due == n.now
    ensures Allowed(n, Stream(l, KeepaliveFires(delay)), true, delay)
    ensures var m := Next(n, Stream(l, KeepaliveFires(delay)));
      && Waiting(m, l, since, limit, delay) && HalfOf(m, l).sender == HalfOf(n, l).sender
      && (NextKeepalive(HalfOf(m, l).receiver, limit) > n.now || NextKeepalive(HalfOf(m, l).receiver, limit) == limit)
  {
    KeepalivePasses(HalfOf(n, l).receiver, n.now);
  }

  function Rest(due: int, limit: int): nat {
    if due >= limit then 0 else limit - due
  }

  /** Time passes up to `limit`, with the checks and the keepalives on the way. */
  lemma {:induction false} PassTime(start: Net, n: Net, l: bool, since: int, limit: int, delay: nat) returns (m: Net)
    requires Leads(start, delay, n) && Waiting(n, l, since, limit, delay)
    ensures Leads(start, delay, m) && Waiting(m, l, since, limit, delay) && m.now == limit
    ensures SameSettings(HalfOf(n, l).sender, HalfOf(m, l).sender)
    ensures HalfOf(n, l).receiver.timers == map[] ==>
      HalfOf(m, l).link == HalfOf(n, l).link && HalfOf(m, l).receiver == HalfOf(n, l).receiver
    decreases
      Rest(NextCheck(HalfOf(n, l).sender, limit), limit) + Rest(NextKeepalive(HalfOf(n, l).receiver, limit), limit)
  {
    var check, keepalive := NextCheck(HalfOf(n, l).sender, limit), NextKeepalive(HalfOf(n, l).receiver, limit);
    if check >= limit && keepalive >= limit {
      WaitAllowed(n, l, since, limit, delay, limit);
      LeadsNext(start, delay, n, Wait(limit));
      m := Next(n, Wait(limit));
    } else if check <= keepalive {
      WaitAllowed(n, l, since, limit, delay, check);
      LeadsNext(start, delay, n, Wait(check));
      var w := Next(n, Wait(check));
      CheckFiresThen(w, l, since, limit, delay);
      LeadsNext(start, delay, w, Stream(l, CheckFires(true)));
      m := PassTime(start, Next(w, Stream(l, CheckFires(true))), l, since, limit, delay);
    } else {
      WaitAllowed(n, l, since, limit, delay, keepalive);
      LeadsNext(start, delay, n, Wait(keepalive));
      var w := Next(n, Wait(keepalive));
      KeepaliveFiresThen(w, l, since, limit, delay);
      LeadsNext(start, delay, w, Stream(l, KeepaliveFires(delay)));
      m := PassTime(start, Next(w, Stream(l, KeepaliveFires(delay))), l, since, limit, delay);
    }
  }

  lemma CaptureStarts(n: Net, l: bool, delay: nat)
    requires Connected(n)
    ensures Allowed(n, Stream(l, Capture(1, true, delay)), true, delay)
    ensures var m := Next(n, Stream(l, Capture(1, true, delay)));
      && Waiting(m, l, n.now, n.now + delay, delay) && HalfOf(m, l).link == Link([Packet(1, n.now + delay)], [])
      && HalfOf(m, l).receiver == HalfOf(n, l).receiver && SameSettings(HalfOf(n, l).sender, HalfOf(m, l).sender)
  {
    assert n.left in {n.left, n.right} && n.right in {n.left, n.right};
  }

  /** The buffer arrives late, and its echo is due an interval later and will be late again. */
  lemma AudioArrivesThen(n: Net, l: bool, since: int, limit: int, delay: nat)
    requires Waiting(n, l, since, limit, delay) && n.now == limit && HalfOf(n, l).link == Link([Packet(1, limit)], [])
    requires var r := HalfOf(n, l).receiver; r.latest == 0 && r.keepaliveTimer == 0 && r.timers == map[]
    ensures Allowed(n, Stream(l, AudioArrives(0)), true, delay)
    ensures var (m, interval) := (Next(n, Stream(l, AudioArrives(0))), HalfOf(n, l).receiver.interval);
      Waiting(m, l, since, limit + interval * 1000 + delay, delay) && HalfOf(m, l).sender == HalfOf(n, l).sender
  {
    var m := Next(n, Stream(l, AudioArrives(0)));
    assert HalfOf(m, l).link == Link([], []);
  }

  /** A buffer is sent at once, and is as late as it may be. */
  lemma SentAndLate(start: Net, l: bool, delay: nat) returns (late: Net)
    requires Connected(start)
    ensures Leads(start, delay, late) && late.now == start.now + delay
    ensures Waiting(late, l, start.now, late.now, delay) && HalfOf(late, l).link == Link([Packet(1, late.now)], [])
    ensures HalfOf(late, l).receiver == HalfOf(start, l).receiver
    ensures SameSettings(HalfOf(start, l).sender, HalfOf(late, l).sender)
    ensures var r := HalfOf(late, l).receiver; r.latest == 0 && r.keepaliveTimer == 0 && r.timers == map[]
  {
    assert start.left in {start.left, start.right} && start.right in {start.left, start.right};
    LeadsStart(start, delay);
    CaptureStarts(start, l, delay);
    LeadsNext(start, delay, start, Stream(l, Capture(1, true, delay)));
    var sent := Next(start, Stream(l, Capture(1, true, delay)));
    late := PassTime(start, sent, l, start.now, start.now + delay, delay);
  }

  /** An interval and a round trip that do not fit in the peer's timeout: a prompt run with a stale end. */
  lemma FalseAlarm(start: Net, l: bool, delay: nat) returns (n: Net)
    requires Connected(start) && !PromptEnough(HalfOf(start, l), delay)
    ensures Leads(start, delay, n) && Stale(HalfOf(n, l).sender, n.now)
  {
    var late := SentAndLate(start, l, delay);
    AudioArrivesThen(late, l, start.now, late.now, delay);
    LeadsNext(start, delay, late, Stream(l, AudioArrives(0)));
    var arrived := Next(late, Stream(l, AudioArrives(0)));
    var limit := late.now + HalfOf(start, l).receiver.interval * 1000 + delay;
    n := PassTime(start, arrived, l, start.now, limit, delay);
  }

  /** No prompt run from `start` ever has a stale end. */
  ghost predicate NeverStale(start: Net, delay: nat) {
    forall n | Leads(start, delay, n) :: !Stale(n.left, n.now) && !Stale(n.right, n.now)
  }

  /** No false alarm in any prompt run, if and only if each interval and a round trip fit in the peer's timeout. */
  lemma ExactlyPromptEnough(start: Net, delay: nat)
    requires Connected(start)
    ensures NeverStale(start, delay) <==> BothPromptEnough(start, delay)
  {
    if BothPromptEnough(start, delay) {
      forall n | Leads(start, delay, n)
        ensures !Stale(n.left, n.now) && !Stale(n.right, n.now)
      {
        var run, steps :| IsRun(run, steps, true, delay) && run[0] == start && run[|run| - 1] == n;
        NoFalseAlarm(run, steps, delay, |run| - 1);
      }
    } else if !PromptEnough(HalfOf(start, true), delay) {
      var n := FalseAlarm(start, true, delay);
    } else {
      var n := FalseAlarm(start, false, delay);
    }
  }
}
