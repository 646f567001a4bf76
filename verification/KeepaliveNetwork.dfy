/**
 * Two ends of an audio connection with packets in flight both ways, and every step
 * the pair can take.  `HalfOf(n, l)` is the stream one end captures and the other echoes.
 */
module KeepaliveNetwork {
  import opened KeepaliveSpec

  /** A timestamp in flight, which arrives at `due` at the latest on a timely link. */
  datatype Packet = Packet(timestamp: int, due: int)

  datatype Link = Link(audio: seq<Packet>, echoes: seq<Packet>)

  datatype Half = Half(now: int, sender: Endpoint, receiver: Endpoint, link: Link, watch: Watch)

  datatype Net = Net(now: int, left: Endpoint, right: Endpoint, fromLeft: Link, fromRight: Link,
                     leftWatch: Watch, rightWatch: Watch)

  function HalfOf(n: Net, l: bool): Half {
    if l then Half(n.now, n.left, n.right, n.fromLeft, n.leftWatch)
    else Half(n.now, n.right, n.left, n.fromRight, n.rightWatch)
  }

  function WithHalf(n: Net, l: bool, h: Half): Net {
    if l then n.(left := h.sender, right := h.receiver, fromLeft := h.link, leftWatch := h.watch)
    else n.(right := h.sender, left := h.receiver, fromRight := h.link, rightWatch := h.watch)
  }

  function Without(s: seq<Packet>, k: nat): seq<Packet>
    requires k < |s|
  {
    s[..k] + s[k + 1..]
  }

  // Steps of one stream

  datatype Event =
    | Capture(timestamp: int, droppable: bool, delay: nat)
    | AudioArrives(k: nat)
    | KeepaliveFires(delay: nat)
    | EchoArrives(k: nat)
    | CheckFires(droppable: bool)
    | AudioLost(k: nat)
    | EchoLost(k: nat)

  predicate Possible(h: Half, e: Event) {
    match e
    case Capture(_, _, _) => true
    case AudioArrives(k) => k < |h.link.audio|
    case AudioLost(k) => k < |h.link.audio|
    case EchoArrives(k) => k < |h.link.echoes|
    case EchoLost(k) => k < |h.link.echoes|
    case KeepaliveFires(_) =>
      var id := h.receiver.keepaliveTimer;
      id != 0 && id in h.receiver.timers && h.receiver.timers[id].due <= h.now
    case CheckFires(_) =>
      var id := h.sender.checkTimer;
      id != 0 && id in h.sender.timers && h.sender.timers[id].due <= h.now
  }

  /** An audio buffer is captured; it is sent unless the connection is stale. */
  function CaptureStep(h: Half, timestamp: int, droppable: bool, delay: nat): Half {
    var (s, ok) := MaySend(h.sender, timestamp, droppable, h.now);
    h.(sender := if ok then ScheduleCheck(s, h.now) else s,
       link := if ok then h.link.(audio := h.link.audio + [Packet(timestamp, h.now + delay)]) else h.link,
       watch := WatchSent(h.watch, h.sender, timestamp, h.now))
  }

  function EchoStep(h: Half, k: nat): Half
    requires k < |h.link.echoes|
  {
    var timestamp := h.link.echoes[k].timestamp;
    h.(sender := EchoReceived(h.sender, timestamp, h.now),
       link := h.link.(echoes := Without(h.link.echoes, k)),
       watch := WatchEcho(h.watch, h.sender, timestamp, h.now))
  }

  function KeepaliveStep(h: Half, delay: nat): Half
    requires h.receiver.keepaliveTimer in h.receiver.timers
  {
    var r := TimerFires(h.receiver, h.receiver.keepaliveTimer, false, h.now);
    h.(receiver := r,
       link := if |r.packets| > |h.receiver.packets|
               then h.link.(echoes := h.link.echoes + [Packet(r.packets[|r.packets| - 1], h.now + delay)])
               else h.link)
  }

  function StreamStep(h: Half, e: Event): Half
    requires Possible(h, e)
  {
    match e
    case Capture(timestamp, droppable, delay) => CaptureStep(h, timestamp, droppable, delay)
    case AudioArrives(k) =>
      h.(receiver := Received(h.receiver, h.link.audio[k].timestamp, h.now),
         link := h.link.(audio := Without(h.link.audio, k)))
    case AudioLost(k) => h.(link := h.link.(audio := Without(h.link.audio, k)))
    case KeepaliveFires(delay) => KeepaliveStep(h, delay)
    case EchoArrives(k) => EchoStep(h, k)
    case EchoLost(k) => h.(link := h.link.(echoes := Without(h.link.echoes, k)))
    case CheckFires(droppable) =>
      h.(sender := TimerFires(h.sender, h.sender.checkTimer, droppable, h.now))
  }

  // Steps of the pair

  datatype Step = Stream(l: bool, event: Event) | Wait(until: int)

  /** Nothing in the pair is overdue at time `t`. */
  ghost predicate NothingOverdue(n: Net, t: int) {
    && (forall p | p in n.fromLeft.audio + n.fromLeft.echoes + n.fromRight.audio + n.fromRight.echoes :: t <= p.due)
    && (forall id | id in n.left.timers :: t <= n.left.timers[id].due)
    && (forall id | id in n.right.timers :: t <= n.right.timers[id].due)
  }

  /**
   * `prompt` is a connection that delivers every packet within `delay` and fires
   * timers on time; otherwise packets may be late or lost, and timers late.
   */
  ghost predicate Allowed(n: Net, s: Step, prompt: bool, delay: nat) {
    match s
    case Wait(until) => until >= n.now && (prompt ==> NothingOverdue(n, until))
    case Stream(l, e) =>
      && Possible(HalfOf(n, l), e)
      && (prompt ==> !e.AudioLost? && !e.EchoLost?)
      && (prompt && e.Capture? ==> e.delay <= delay)
      && (prompt && e.KeepaliveFires? ==> e.delay <= delay)
  }

  function Next(n: Net, s: Step): Net
    requires s.Stream? ==> Possible(HalfOf(n, s.l), s.event)
  {
    match s
    case Wait(until) => n.(now := until)
    case Stream(l, e) => WithHalf(n, l, StreamStep(HalfOf(n, l), e))
  }

  /** A fresh end, enabled for the other's stream and receiving one. */
  ghost predicate JustEnabled(e: Endpoint) {
    && e.remoteKeepalive && e.interval > 0 && e.timeout > 0 && e.hasSink
    && e.latest == e.echoed == e.sent == e.echoStart == 0
    && e.keepaliveTimer == e.checkTimer == 0 && e.timers == map[] && e.nextTimer > 0
    && !e.staleWarning && e.stops == 0
  }

  ghost predicate Connected(n: Net) {
    && n.now > 0
    && n.fromLeft == n.fromRight == Link([], [])
    && n.leftWatch == n.rightWatch == Watch(0, 0)
    && JustEnabled(n.left) && JustEnabled(n.right)
  }

  ghost predicate IsRun(run: seq<Net>, steps: seq<Step>, prompt: bool, delay: nat) {
    && |run| == |steps| + 1
    && Connected(run[0])
    && forall k | 0 <= k < |steps| :: Allowed(run[k], steps[k], prompt, delay) && run[k + 1] == Next(run[k], steps[k])
  }

  lemma RunGrows(run: seq<Net>, steps: seq<Step>, prompt: bool, delay: nat, s: Step)
    requires IsRun(run, steps, prompt, delay) && Allowed(run[|run| - 1], s, prompt, delay)
    ensures IsRun(run + [Next(run[|run| - 1], s)], steps + [s], prompt, delay)
  {
    var grown, longer := run + [Next(run[|run| - 1], s)], steps + [s];
    forall k | 0 <= k < |longer|
      ensures Allowed(grown[k], longer[k], prompt, delay) && grown[k + 1] == Next(grown[k], longer[k])
    {
      if k < |steps| {
        assert grown[k] == run[k] && grown[k + 1] == run[k + 1] && longer[k] == steps[k];
      }
    }
  }
}
