/**
 * One end of an audio connection: what each keepalive operation does to its state.
 * Times are in milliseconds of a monotonic clock that is never zero; the interval
 * and the timeout are in seconds.
 */
module KeepaliveSpec {
  datatype TimerKind = SendKeepalive | CheckEcho

  datatype Timer = Timer(due: int, kind: TimerKind)

  /** The armed timers are exactly those of two timer fields, of which 0 is none. */
  ghost predicate TimersOf(timers: map<int, Timer>, next: int, keepalive: int, check: int) {
    && next > 0
    && (forall id | id in timers :: 0 < id < next && (id == keepalive || id == check))
    && (keepalive != 0 ==> keepalive in timers && timers[keepalive].kind == SendKeepalive)
    && (check != 0 ==> check in timers && timers[check].kind == CheckEcho)
  }

  /** `timers` holds the armed timers of the main loop, `nextTimer` the id it gives out next. */
  datatype Endpoint = Endpoint(
    interval: int, timeout: int,
    remoteKeepalive: bool,
    latest: int, echoed: int, sent: int, echoStart: int,
    keepaliveTimer: int, checkTimer: int,
    staleWarning: bool,
    hasSource: bool, hasSink: bool,
    timers: map<int, Timer>, nextTimer: int,
    packets: seq<int>, stops: nat)
  {
    predicate Supported() {
      interval > 0 && timeout > 0
    }

    predicate Enabled() {
      remoteKeepalive && Supported()
    }

    predicate Active() {
      hasSource || hasSink
    }

    ghost predicate TimersOk() {
      TimersOf(timers, nextTimer, keepaliveTimer, checkTimer)
    }
  }

  /** The state `init_audio_keepalive_state` leaves. */
  ghost predicate Initial(e: Endpoint) {
    && !e.remoteKeepalive && e.latest == e.echoed == e.sent == e.echoStart == 0
    && e.keepaliveTimer == e.checkTimer == 0 && !e.staleWarning
    && e.timers == map[] && e.nextTimer > 0 && e.packets == [] && e.stops == 0
  }

  function ParseCaps(e: Endpoint, keepalive: bool): Endpoint {
    e.(remoteKeepalive := keepalive && e.Supported())
  }

  function CancelTimers(e: Endpoint): Endpoint {
    e.(timers := e.timers - {e.keepaliveTimer, e.checkTimer}, keepaliveTimer := 0, checkTimer := 0)
  }

  function ScheduleKeepalive(e: Endpoint, now: int): Endpoint {
    if !e.Enabled() || e.keepaliveTimer != 0 || e.latest == 0 then e
    else e.(timers := e.timers[e.nextTimer := Timer(now + e.interval * 1000, SendKeepalive)],
            keepaliveTimer := e.nextTimer, nextTimer := e.nextTimer + 1)
  }

  function ScheduleCheck(e: Endpoint, now: int): Endpoint {
    if !e.Enabled() || e.checkTimer != 0 then e
    else e.(timers := e.timers[e.nextTimer := Timer(now + 1000, CheckEcho)],
            checkTimer := e.nextTimer, nextTimer := e.nextTimer + 1)
  }

  function Received(e: Endpoint, timestamp: int, now: int): Endpoint {
    if timestamp > e.latest then ScheduleKeepalive(e.(latest := timestamp), now) else e
  }

  function Sent(e: Endpoint, timestamp: int, now: int): Endpoint {
    if timestamp > e.sent then e.(sent := timestamp, echoStart := if e.echoStart == 0 then now else e.echoStart) else e
  }

  predicate Stale(e: Endpoint, now: int) {
    && e.Enabled() && e.sent != 0 && e.echoed < e.sent && e.echoStart != 0
    && now - e.echoStart > e.timeout * 1000
  }

  /** A stale connection is warned about once, and is stopped unless its packets can be dropped. */
  function HandleStale(e: Endpoint, droppable: bool, now: int): Endpoint {
    if !Stale(e, now) then e
    else e.(staleWarning := true, stops := if droppable then e.stops else e.stops + 1)
  }

  function MaySend(e: Endpoint, timestamp: int, droppable: bool, now: int): (Endpoint, bool) {
    var e1 := Sent(e, timestamp, now);
    (HandleStale(e1, droppable, now), !Stale(e1, now))
  }

  function EchoReceived(e: Endpoint, timestamp: int, now: int): Endpoint {
    if timestamp > e.echoed
    then e.(echoed := timestamp, staleWarning := false, echoStart := if timestamp < e.sent then now else 0)
    else e
  }

  /** The keepalive timer's callback. */
  function KeepaliveDue(e: Endpoint, now: int): Endpoint {
    var e1 := e.(keepaliveTimer := 0);
    if !e1.Enabled() || e1.latest == 0 then e1
    else
      var e2 := e1.(packets := e1.packets + [e1.latest]);
      if e2.Active() then ScheduleKeepalive(e2, now) else e2
  }

  /** The check timer's callback. */
  function CheckDue(e: Endpoint, droppable: bool, now: int): Endpoint {
    var e1 := HandleStale(e.(checkTimer := 0), droppable, now);
    if e1.hasSource then ScheduleCheck(e1, now) else e1
  }

  /** The main loop runs timer `id` and forgets it. */
  function TimerFires(e: Endpoint, id: int, droppable: bool, now: int): Endpoint
    requires id in e.timers
  {
    var e1 := e.(timers := e.timers - {id});
    match e.timers[id].kind
    case SendKeepalive => KeepaliveDue(e1, now)
    case CheckEcho => CheckDue(e1, droppable, now)
  }

  // What the echo clock means

  /**
   * When the endpoint last went from everything echoed to something outstanding, and
   * when an echo last advanced; the endpoint itself never sees these.
   */
  datatype Watch = Watch(since: int, advance: int)

  function Max(a: int, b: int): int {
    if a > b then a else b
  }

  /** An observer of what was sent: something is outstanding now that nothing was before. */
  function WatchSent(w: Watch, e: Endpoint, timestamp: int, now: int): Watch {
    if e.echoed >= e.sent && e.echoed < timestamp then w.(since := now) else w
  }

  /** An observer of an echo. */
  function WatchEcho(w: Watch, e: Endpoint, timestamp: int, now: int): Watch {
    if timestamp > e.echoed then w.(advance := now) else w
  }

  /** Nothing was echoed that was not sent: the clock runs just while something is outstanding, from the later time. */
  predicate ClockOf(echoed: int, sent: int, echoStart: int, w: Watch, now: int) {
    && 0 <= w.since <= now && 0 <= w.advance <= now && echoed <= sent
    && (echoStart != 0 <==> echoed < sent)
    && (echoed < sent ==> echoStart == Max(w.since, w.advance))
  }

  /** An echo of something sent keeps the clock's meaning, as time does. */
  lemma EchoKeepsClock(echoed: int, sent: int, echoStart: int, w: Watch, clock: int, timestamp: int, now: int)
    requires ClockOf(echoed, sent, echoStart, w, clock) && clock <= now && 0 < now
    ensures ClockOf(echoed, sent, echoStart, w, now)
    ensures echoed < timestamp <= sent ==>
      ClockOf(timestamp, sent, if timestamp < sent then now else 0, w.(advance := now), now)
  {
  }

  predicate ClockOk(e: Endpoint, w: Watch, now: int) {
    ClockOf(e.echoed, e.sent, e.echoStart, w, now)
  }

  /** Data has been outstanding, and no echo has advanced, for longer than the timeout. */
  predicate Silent(e: Endpoint, w: Watch, now: int) {
    e.echoed < e.sent && now - w.since > e.timeout * 1000 && now - w.advance > e.timeout * 1000
  }

  /** Then an alarm means silence, and silence an alarm. */
  lemma AlarmIsSilence(e: Endpoint, w: Watch, before: int, now: int)
    requires ClockOk(e, w, before) && before <= now
    ensures Stale(e, now) <==> e.Enabled() && e.sent != 0 && Silent(e, w, now)
  {
  }

  // Timers

  lemma SchedulingKeepsTimers(e: Endpoint, now: int)
    requires e.TimersOk()
    ensures ScheduleKeepalive(e, now).TimersOk()
    ensures ScheduleCheck(e, now).TimersOk()
  {
  }

  predicate SameTimers(e: Endpoint, f: Endpoint) {
    && f.timers == e.timers && f.nextTimer == e.nextTimer
    && f.keepaliveTimer == e.keepaliveTimer && f.checkTimer == e.checkTimer
  }

  /** Only scheduling, firing and cancelling touch the timers. */
  lemma TimersUntouched(e: Endpoint, timestamp: int, flag: bool, now: int)
    ensures SameTimers(e, ParseCaps(e, flag))
    ensures SameTimers(e, MaySend(e, timestamp, flag, now).0)
    ensures SameTimers(e, EchoReceived(e, timestamp, now))
  {
  }

  lemma ReceivingKeepsTimers(e: Endpoint, timestamp: int, now: int)
    requires e.TimersOk()
    ensures Received(e, timestamp, now).TimersOk()
  {
    SchedulingKeepsTimers(e.(latest := timestamp), now);
  }

  lemma CancellingDisarmsAll(e: Endpoint)
    requires e.TimersOk()
    ensures CancelTimers(e).TimersOk() && CancelTimers(e).timers == map[]
  {
    assert forall id :: id !in CancelTimers(e).timers;
  }

  lemma KeepaliveDueKeepsTimers(e: Endpoint, now: int)
    requires e.TimersOk() && e.keepaliveTimer != 0
    ensures TimerFires(e, e.keepaliveTimer, false, now).TimersOk()
  {
    var e1 := e.(timers := e.timers - {e.keepaliveTimer}, keepaliveTimer := 0);
    SchedulingKeepsTimers(e1.(packets := e1.packets + [e1.latest]), now);
  }

  lemma CheckDueKeepsTimers(e: Endpoint, droppable: bool, now: int)
    requires e.TimersOk() && e.checkTimer != 0
    ensures TimerFires(e, e.checkTimer, droppable, now).TimersOk()
  {
    var e1 := e.(timers := e.timers - {e.checkTimer}, checkTimer := 0);
    SchedulingKeepsTimers(HandleStale(e1, droppable, now), now);
  }

  lemma FiringKeepsTimers(e: Endpoint, id: int, droppable: bool, now: int)
    requires e.TimersOk() && id in e.timers
    ensures TimerFires(e, id, droppable, now).TimersOk()
  {
    if id == e.keepaliveTimer {
      KeepaliveDueKeepsTimers(e, now);
    } else {
      CheckDueKeepsTimers(e, droppable, now);
    }
  }
}
