/**
 * AudioKeepaliveMixin with its fields.  Each method keeps `Valid` and says what it
 * does for the connection; `View() == ...` makes it the step the runs are made of.
 */
module AudioKeepalive {
  import opened KeepaliveSpec

  class AudioKeepaliveMixin {
    const interval: int
    const timeout: int
    var remoteKeepalive: bool
    var latest: int
    var echoed: int
    var sent: int
    var echoStart: int
    var keepaliveTimer: int
    var checkTimer: int
    var staleWarning: bool
    var hasSource: bool
    var hasSink: bool
    // the transport: armed timers, keepalive packets sent, times audio was stopped
    var timers: map<int, Timer>
    var nextTimer: int
    var packets: seq<int>
    var stops: nat
    // an observer: when waiting began and echoes advanced, the last time seen, no echo of what was not sent
    ghost var watch: Watch
    ghost var clock: int
    ghost var honest: bool

    function View(): Endpoint
      reads this
    {
      Endpoint(interval, timeout, remoteKeepalive, latest, echoed, sent, echoStart, keepaliveTimer, checkTimer,
               staleWarning, hasSource, hasSink, timers, nextTimer, packets, stops)
    }

    /** The armed timers are those of the timer fields. */
    ghost predicate TimersValid()
      reads this`timers, this`nextTimer, this`keepaliveTimer, this`checkTimer
    {
      TimersOf(timers, nextTimer, keepaliveTimer, checkTimer)
    }

    /** With an honest peer the echo clock means what it should. */
    ghost predicate ClockValid()
      reads this`echoed, this`sent, this`echoStart, this`watch, this`clock, this`honest
    {
      0 <= clock && 0 <= sent && (honest ==> ClockOf(echoed, sent, echoStart, watch, clock))
    }

    ghost predicate Valid()
      reads this
    {
      TimersValid() && ClockValid()
    }

    /** The connection has been silent for longer than the timeout; only the observer can tell. */
    ghost predicate Alarming(now: int)
      reads this
    {
      Enabled() && sent != 0 && Silent(View(), watch, now)
    }

    constructor (interval: int, timeout: int)
      ensures Valid() && honest && Initial(View()) && this.interval == interval && this.timeout == timeout
      ensures watch == Watch(0, 0) && clock == 0 && !hasSource && !hasSink
    {
      this.interval, this.timeout := interval, timeout;
      remoteKeepalive, latest, echoed, sent, echoStart := false, 0, 0, 0, 0;
      keepaliveTimer, checkTimer, staleWarning := 0, 0, false;
      hasSource, hasSink := false, false;
      timers, nextTimer, packets, stops := map[], 1, [], 0;
      watch, clock, honest := Watch(0, 0), 0, true;
    }

    predicate Enabled()
      reads this
    {
      remoteKeepalive && interval > 0 && timeout > 0
    }

    method AddTimer(due: int, kind: TimerKind) returns (id: int)
      modifies this`timers, this`nextTimer
      ensures id == old(nextTimer) && nextTimer == old(nextTimer) + 1
      ensures timers == old(timers)[id := Timer(due, kind)]
    {
      id := nextTimer;
      timers, nextTimer := timers[id := Timer(due, kind)], nextTimer + 1;
    }

    method ParseKeepaliveCaps(keepalive: bool) returns (r: bool)
      modifies this`remoteKeepalive
      ensures View() == ParseCaps(old(View()), keepalive)
      ensures r == Enabled()
    {
      remoteKeepalive := keepalive && interval > 0 && timeout > 0;
      r := remoteKeepalive;
    }

    method CancelKeepaliveTimers()
      requires Valid()
      modifies this`timers, this`keepaliveTimer, this`checkTimer
      ensures View() == CancelTimers(old(View())) && Valid()
      ensures timers == map[]
    {
      CancellingDisarmsAll(View());
      if keepaliveTimer != 0 {
        timers := timers - {keepaliveTimer};
        keepaliveTimer := 0;
      }
      if checkTimer != 0 {
        timers := timers - {checkTimer};
        checkTimer := 0;
      }
      assert forall id :: id !in timers;
    }

    /** After newer audio an echo is armed. */
    method UpdateLatestReceived(timestamp: int, now: int)
      requires Valid()
      modifies this`latest, this`timers, this`nextTimer, this`keepaliveTimer
      ensures View() == Received(old(View()), timestamp, now) && Valid()
      ensures latest == Max(old(latest), timestamp)
      ensures Enabled() && old(latest) < timestamp && timestamp != 0 ==> keepaliveTimer in timers
      ensures timestamp <= old(latest) ==> timers == old(timers) && keepaliveTimer == old(keepaliveTimer)
    {
      if timestamp > latest {
        latest := timestamp;
        ScheduleAudioKeepalive(now);
      }
    }

    /** The clock starts with the first buffer that is not echoed, and not again. */
    method UpdateLatestSent(timestamp: int, now: int)
      requires ClockValid() && clock <= now && 0 < now
      modifies this`sent, this`echoStart, this`watch, this`clock
      ensures View() == Sent(old(View()), timestamp, now) && ClockValid() && clock == now
      ensures watch == WatchSent(old(watch), old(View()), timestamp, now)
    {
      clock, watch := now, WatchSent(watch, View(), timestamp, now);
      if timestamp > sent {
        sent := timestamp;
        if echoStart == 0 {
          echoStart := now;
        }
      }
    }

    predicate Armed(id: int, due: int)
      reads this`timers
    {
      id in timers && timers[id].due == due
    }

    /** Whoever has received audio has an echo armed, once, an interval from now; nothing else changes. */
    method ScheduleAudioKeepalive(now: int)
      requires TimersValid()
      modifies this`timers, this`nextTimer, this`keepaliveTimer
      ensures View() == ScheduleKeepalive(old(View()), now) && TimersValid()
      ensures Enabled() && latest != 0 ==> keepaliveTimer in timers
      ensures if Enabled() && latest != 0 && old(keepaliveTimer) == 0 then Armed(keepaliveTimer, now + 1000 * interval)
              else keepaliveTimer == old(keepaliveTimer) && timers == old(timers)
    {
      if !Enabled() || keepaliveTimer != 0 || latest == 0 {
        return;
      }
      keepaliveTimer := AddTimer(now + interval * 1000, SendKeepalive);
    }

    /**
     * The timer's callback, once the main loop forgot it: the latest timestamp goes out,
     * and the next is armed, unless the end neither plays nor sends audio.
     */
    method SendAudioKeepalive(now: int)
      requires TimersOf(timers, nextTimer, 0, checkTimer)
      modifies this`packets, this`timers, this`nextTimer, this`keepaliveTimer
      ensures View() == KeepaliveDue(old(View()), now) && TimersValid()
      ensures packets == old(packets) + (if Enabled() && latest != 0 then [latest] else [])
      ensures if Enabled() && latest != 0 && (hasSource || hasSink) then Armed(keepaliveTimer, now + 1000 * interval)
              else keepaliveTimer == 0 && timers == old(timers)
    {
      keepaliveTimer := 0;
      if !Enabled() || latest == 0 {
        return;
      }
      packets := packets + [latest];
      if hasSource || hasSink {
        ScheduleAudioKeepalive(now);
      }
    }

    /** From here on staleness is looked at every second, by one timer; nothing else changes. */
    method ScheduleKeepaliveCheck(now: int)
      requires TimersValid()
      modifies this`timers, this`nextTimer, this`checkTimer
      ensures View() == ScheduleCheck(old(View()), now) && TimersValid()
      ensures Enabled() ==> checkTimer in timers
      ensures if Enabled() && old(checkTimer) == 0 then Armed(checkTimer, now + 1000)
              else checkTimer == old(checkTimer) && timers == old(timers)
    {
      if !Enabled() || checkTimer != 0 {
        return;
      }
      checkTimer := AddTimer(now + 1000, CheckEcho);
    }

    /** The timer's callback: audio that is silent is stopped, and a source goes on being checked. */
    method CheckAudioKeepalive(droppable: bool, now: int)
      requires TimersOf(timers, nextTimer, keepaliveTimer, 0) && ClockValid() && clock <= now
      modifies this`staleWarning, this`stops, this`timers, this`nextTimer, this`checkTimer
      ensures View() == CheckDue(old(View()), droppable, now) && TimersValid()
      ensures honest ==> stops == old(stops) + (if Alarming(now) && !droppable then 1 else 0)
      ensures if Enabled() && hasSource then Armed(checkTimer, now + 1000)
              else checkTimer == 0 && timers == old(timers)
    {
      checkTimer := 0;
      assert View() == old(View()).(checkTimer := 0);
      var stale := HandleAudioKeepaliveStale(droppable, now);
      if hasSource {
        ScheduleKeepaliveCheck(now);
      }
    }

    /** With an honest peer: data has been outstanding, and no echo has advanced, for longer than the timeout. */
    method AudioKeepaliveStale(now: int) returns (stale: bool)
      requires ClockValid() && clock <= now
      ensures stale == Stale(View(), now)
      ensures honest ==> (stale <==> Alarming(now))
    {
      if honest {
        AlarmIsSilence(View(), watch, clock, now);
      }
      if !Enabled() || sent == 0 {
        return false;
      }
      if echoed >= sent {
        return false;
      }
      if echoStart == 0 {
        return false;
      }
      return now - echoStart > timeout * 1000;
    }

    /** A silent connection is warned about, and its audio stopped unless it may be dropped. */
    method HandleAudioKeepaliveStale(droppable: bool, now: int) returns (stale: bool)
      requires ClockValid() && clock <= now
      modifies this`staleWarning, this`stops
      ensures View() == HandleStale(old(View()), droppable, now)
      ensures stale == Stale(View(), now) && (honest ==> (stale <==> Alarming(now)))
      ensures stops == old(stops) + (if stale && !droppable then 1 else 0)
      ensures staleWarning <==> old(staleWarning) || stale
    {
      stale := AudioKeepaliveStale(now);
      if !stale {
        return;
      }
      staleWarning := true;
      if !droppable {
        stops := stops + 1;
      }
    }

    /** A buffer may go out unless the connection is silent; it counts as sent either way. */
    method AudioKeepaliveMaySend(timestamp: int, droppable: bool, now: int) returns (ok: bool)
      requires ClockValid() && clock <= now && 0 < now
      modifies this`sent, this`echoStart, this`staleWarning, this`stops, this`watch, this`clock
      ensures (View(), ok) == MaySend(old(View()), timestamp, droppable, now) && ClockValid() && clock == now
      ensures watch == WatchSent(old(watch), old(View()), timestamp, now)
      ensures honest ==> (!ok <==> Alarming(now))
    {
      UpdateLatestSent(timestamp, now);
      var stale := HandleAudioKeepaliveStale(droppable, now);
      ok := !stale;
    }

    /** An echo from the peer: one that advances puts an alarm off by the whole timeout. */
    method Keepalive(timestamp: int, now: int)
      requires ClockValid() && clock <= now && 0 < now
      modifies this`echoed, this`echoStart, this`staleWarning, this`watch, this`clock, this`honest
      ensures View() == EchoReceived(old(View()), timestamp, now) && ClockValid() && clock == now
      ensures watch == WatchEcho(old(watch), old(View()), timestamp, now)
      ensures honest == (old(honest) && timestamp <= sent)
      ensures timestamp > old(echoed) ==> !Stale(View(), now + timeout * 1000)
    {
      if honest {
        EchoKeepsClock(echoed, sent, echoStart, watch, clock, timestamp, now);
      }
      clock, honest := now, honest && timestamp <= sent;
      if timestamp > echoed {
        watch := watch.(advance := now);
        assert View() == old(View());
        echoed := timestamp;
        staleWarning := false;
        var unacknowledged := echoed < sent;
        echoStart := if unacknowledged then now else 0;
      }
    }

    /** The main loop runs a timer, and forgets it. */
    method TimerFires(id: int, droppable: bool, now: int)
      requires Valid() && clock <= now && id in timers
      modifies this`packets, this`staleWarning, this`stops
      modifies this`timers, this`nextTimer, this`keepaliveTimer, this`checkTimer
      ensures View() == KeepaliveSpec.TimerFires(old(View()), id, droppable, now) && Valid()
    {
      var kind := timers[id].kind;
      timers := timers - {id};
      match kind {
        case SendKeepalive => SendAudioKeepalive(now);
        case CheckEcho => CheckAudioKeepalive(droppable, now);
      }
    }
  }
}
