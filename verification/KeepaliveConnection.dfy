/** Two mixin objects joined by links: what happens to them is a run, so what holds of runs holds of the objects. */
module KeepaliveConnection {
  import opened KeepaliveSpec
  import opened KeepaliveNetwork
  import opened KeepaliveRuns
  import opened AudioKeepalive

  ghost function HalfShape(now: int, sender: AudioKeepaliveMixin, receiver: AudioKeepaliveMixin, link: Link): Half
    reads sender, receiver
  {
    Half(now, sender.View(), receiver.View(), link, sender.watch)
  }

  ghost predicate EndOk(e: AudioKeepaliveMixin, now: int)
    reads e
  {
    e.Valid() && e.honest && e.clock <= now && 0 < now
  }

  method Captured(now: int, sender: AudioKeepaliveMixin, receiver: AudioKeepaliveMixin, link: Link,
                  timestamp: int, droppable: bool, delay: nat) returns (link': Link)
    requires sender != receiver && EndOk(sender, now)
    modifies sender
    ensures EndOk(sender, now)
    ensures HalfShape(now, sender, receiver, link') ==
      CaptureStep(old(HalfShape(now, sender, receiver, link)), timestamp, droppable, delay)
  {
    link' := link;
    var ok := sender.AudioKeepaliveMaySend(timestamp, droppable, now);
    if ok {
      link' := link.(audio := link.audio + [Packet(timestamp, now + delay)]);
      sender.ScheduleKeepaliveCheck(now);
    }
  }

  method KeepaliveFired(now: int, sender: AudioKeepaliveMixin, receiver: AudioKeepaliveMixin, link: Link, delay: nat)
    returns (link': Link)
    requires sender != receiver && EndOk(receiver, now)
    requires receiver.keepaliveTimer != 0
    modifies receiver
    ensures EndOk(receiver, now) && receiver.watch == old(receiver.watch)
    ensures HalfShape(now, sender, receiver, link') == KeepaliveStep(old(HalfShape(now, sender, receiver, link)), delay)
  {
    var before := |receiver.packets|;
    receiver.TimerFires(receiver.keepaliveTimer, false, now);
    link' := link;
    if |receiver.packets| > before {
      var echo := receiver.packets[|receiver.packets| - 1];
      link' := link.(echoes := link.echoes + [Packet(echo, now + delay)]);
    }
  }

  /** One event of a stream, on the objects. */
  method Happens(now: int, sender: AudioKeepaliveMixin, receiver: AudioKeepaliveMixin, link: Link, e: Event)
    returns (link': Link)
    requires sender != receiver && EndOk(sender, now) && EndOk(receiver, now)
    requires Possible(HalfShape(now, sender, receiver, link), e)
    requires e.EchoArrives? ==> link.echoes[e.k].timestamp <= sender.sent
    modifies sender, receiver
    ensures EndOk(sender, now) && EndOk(receiver, now) && receiver.watch == old(receiver.watch)
    ensures HalfShape(now, sender, receiver, link') == StreamStep(old(HalfShape(now, sender, receiver, link)), e)
  {
    link' := link;
    match e {
      case Capture(timestamp, droppable, delay) =>
        link' := Captured(now, sender, receiver, link, timestamp, droppable, delay);
      case AudioArrives(k) =>
        receiver.UpdateLatestReceived(link.audio[k].timestamp, now);
        link' := link.(audio := Without(link.audio, k));
      case AudioLost(k) => link' := link.(audio := Without(link.audio, k));
      case KeepaliveFires(delay) => link' := KeepaliveFired(now, sender, receiver, link, delay);
      case EchoArrives(k) =>
        sender.Keepalive(link.echoes[k].timestamp, now);
        link' := link.(echoes := Without(link.echoes, k));
      case EchoLost(k) => link' := link.(echoes := Without(link.echoes, k));
      case CheckFires(droppable) => sender.TimerFires(sender.checkTimer, droppable, now);
    }
  }

  /** A new end that plays audio, and hears that the other handles keepalives. */
  method EnabledEnd(interval: int, timeout: int, now: int) returns (e: AudioKeepaliveMixin)
    requires interval > 0 && timeout > 0 && now > 0
    ensures fresh(e) && EndOk(e, now) && JustEnabled(e.View()) && e.watch == Watch(0, 0)
    ensures e.interval == interval && e.timeout == timeout
  {
    e := new AudioKeepaliveMixin(interval, timeout);
    e.hasSink := true;
    var enabled := e.ParseKeepaliveCaps(true);
    assert enabled;
  }

  /** `run` and `steps` remember the connection's states and what happened in between. */
  class Connection {
    const left: AudioKeepaliveMixin
    const right: AudioKeepaliveMixin
    var now: int
    var fromLeft: Link
    var fromRight: Link
    ghost const prompt: bool
    ghost const delay: nat
    ghost var run: seq<Net>
    ghost var steps: seq<Step>

    ghost function Shape(): Net
      reads this, left, right
    {
      Net(now, left.View(), right.View(), fromLeft, fromRight, left.watch, right.watch)
    }

    ghost predicate Valid()
      reads this, left, right
    {
      && left != right && EndOk(left, now) && EndOk(right, now)
      && IsRun(run, steps, prompt, delay) && run[|run| - 1] == Shape()
    }

    /** Two ends with keepalives of their own, each told of the other's, and with audio to play. */
    constructor (leftInterval: int, leftTimeout: int, rightInterval: int, rightTimeout: int, now: int,
                 ghost prompt: bool, ghost delay: nat)
      requires leftInterval > 0 && leftTimeout > 0 && rightInterval > 0 && rightTimeout > 0 && now > 0
      ensures Valid() && fresh(left) && fresh(right) && this.prompt == prompt && this.delay == delay && |run| == 1
      ensures left.interval == leftInterval && left.timeout == leftTimeout
      ensures right.interval == rightInterval && right.timeout == rightTimeout
    {
      var l := EnabledEnd(leftInterval, leftTimeout, now);
      var r := EnabledEnd(rightInterval, rightTimeout, now);
      left, right, this.now, this.prompt, this.delay := l, r, now, prompt, delay;
      fromLeft, fromRight := Link([], []), Link([], []);
      run := [Net(now, l.View(), r.View(), Link([], []), Link([], []), l.watch, r.watch)];
      steps := [];
    }

    /** One event of one of the streams, on the objects. */
    method Transmit(l: bool, e: Event)
      requires left != right && EndOk(left, now) && EndOk(right, now) && Possible(HalfOf(Shape(), l), e)
      requires forall p | p in HalfOf(Shape(), l).link.echoes :: p.timestamp <= HalfOf(Shape(), l).sender.sent
      modifies this`fromLeft, this`fromRight, left, right
      ensures EndOk(left, now) && EndOk(right, now)
      ensures Shape() == Next(old(Shape()), Stream(l, e))
    {
      if l {
        fromLeft := Happens(now, left, right, fromLeft, e);
      } else {
        fromRight := Happens(now, right, left, fromRight, e);
      }
    }

    /** Whatever may happen to one of the streams happens to the objects as it does in the run. */
    method Happen(l: bool, e: Event)
      requires Valid() && Allowed(Shape(), Stream(l, e), prompt, delay)
      modifies this`fromLeft, this`fromRight, this`run, this`steps, left, right
      ensures Valid() && run == old(run) + [Shape()] && steps == old(steps) + [Stream(l, e)]
    {
      RunGrows(run, steps, prompt, delay, Stream(l, e));
      EchoesOfSent(l);
      Transmit(l, e);
      run, steps := run + [Shape()], steps + [Stream(l, e)];
    }

    lemma EchoesOfSent(l: bool)
      requires Valid()
      ensures forall p | p in HalfOf(Shape(), l).link.echoes :: p.timestamp <= HalfOf(Shape(), l).sender.sent
    {
      EveryStateSound(run, steps, prompt, delay, |run| - 1);
    }

    /** Time passes. */
    method Wait(until: int)
      requires Valid() && Allowed(Shape(), Step.Wait(until), prompt, delay)
      modifies this`now, this`run, this`steps
      ensures Valid() && now == until && run == old(run) + [Shape()]
    {
      RunGrows(run, steps, prompt, delay, Step.Wait(until));
      now := until;
      run, steps := run + [Shape()], steps + [Step.Wait(until)];
    }

    /**
     * The question an end asks: with a prompt connection and settings that fit, the
     * answer is no whenever it is asked; with any other, it is yes exactly after a
     * silence longer than the timeout.
     */
    method Stale(l: bool) returns (stale: bool)
      requires Valid()
      ensures prompt && BothPromptEnough(run[0], delay) ==> !stale && left.stops == right.stops == 0
      ensures var h := HalfOf(Shape(), l); stale <==> Silent(h.sender, h.watch, now)
    {
      AlarmMeaning(run, steps, prompt, delay, |run| - 1, l);
      if prompt && BothPromptEnough(run[0], delay) {
        NoFalseAlarm(run, steps, delay, |run| - 1);
      }
      if l {
        stale := left.AudioKeepaliveStale(now);
      } else {
        stale := right.AudioKeepaliveStale(now);
      }
    }
  }
}
