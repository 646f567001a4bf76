/**
 * What every run of the pair keeps, and the theorem the keepalive is for: on a
 * connection that is prompt enough, no end ever takes its peer for dead.
 */
module KeepaliveSafety {
  import opened KeepaliveSpec
  import opened KeepaliveNetwork

  /** An end in operation: enabled for its peer, receiving, its timers accounted for. */
  ghost predicate Ready(e: Endpoint) {
    e.Enabled() && e.hasSink && e.TimersOk()
  }

  /** What echoes and the echo clock mean, however slow or lossy the connection is. */
  ghost predicate InOrder(h: Half) {
    && h.now > 0
    && 0 <= h.sender.echoed <= h.receiver.latest <= h.sender.sent
    && (forall p | p in h.link.audio :: p.timestamp <= h.sender.sent)
    && (forall p | p in h.link.echoes :: p.timestamp <= h.receiver.latest)
    && ClockOk(h.sender, h.watch, h.now)
  }

  function KeepaliveTime(e: Endpoint): int
    requires e.keepaliveTimer in e.timers
  {
    e.timers[e.keepaliveTimer].due
  }

  /** The echo that will advance the sender is on its way, and `limit` is when it arrives at the latest. */
  ghost predicate EchoComing(h: Half, limit: int, delay: nat)
    requires h.receiver.latest > 0 ==> h.receiver.keepaliveTimer in h.receiver.timers
  {
    || (exists p :: p in h.link.audio && p.timestamp > h.sender.echoed
                    && p.due + h.receiver.interval * 1000 + delay <= limit)
    || (h.receiver.latest > 0 && h.receiver.latest > h.sender.echoed && KeepaliveTime(h.receiver) + delay <= limit)
    || (exists p :: p in h.link.echoes && p.timestamp > h.sender.echoed && p.due <= limit)
  }

  ghost predicate OnTime(h: Half, delay: nat) {
    && (forall p | p in h.link.audio + h.link.echoes :: h.now <= p.due <= h.now + delay)
    && (h.receiver.latest == 0 ==> h.receiver.keepaliveTimer == 0)
    && (h.receiver.latest > 0 ==>
          && h.receiver.keepaliveTimer in h.receiver.timers
          && h.now <= KeepaliveTime(h.receiver) <= h.now + h.receiver.interval * 1000)
    && (h.sender.sent > h.receiver.latest ==> exists p :: p in h.link.audio && p.timestamp == h.sender.sent)
    && (h.sender.echoed < h.sender.sent ==>
          EchoComing(h, h.sender.echoStart + h.receiver.interval * 1000 + 2 * delay, delay))
  }

  /** An echo goes out every interval and the round trip fits in the rest of the timeout. */
  predicate PromptEnough(h: Half, delay: nat) {
    h.receiver.interval * 1000 + 2 * delay <= h.sender.timeout * 1000
  }

  // Packets of a link

  lemma WithoutMembers(s: seq<Packet>, k: nat)
    requires k < |s|
    ensures forall p | p in Without(s, k) :: p in s
    ensures forall p | p in s :: p == s[k] || p in Without(s, k)
  {
    forall p | p in s && p != s[k]
      ensures p in Without(s, k)
    {
      var i :| 0 <= i < |s| && s[i] == p;
      assert Without(s, k)[if i < k then i else i - 1] == p;
    }
  }

  // Order

  lemma CaptureInOrder(h: Half, timestamp: int, droppable: bool, delay: nat)
    requires InOrder(h)
    ensures InOrder(CaptureStep(h, timestamp, droppable, delay))
  {
  }

  lemma EchoInOrder(h: Half, k: nat)
    requires InOrder(h) && k < |h.link.echoes|
    ensures InOrder(EchoStep(h, k))
  {
    WithoutMembers(h.link.echoes, k);
    assert h.link.echoes[k] in h.link.echoes;
  }

  lemma KeepaliveInOrder(h: Half, delay: nat)
    requires InOrder(h) && h.receiver.TimersOk() && h.receiver.keepaliveTimer != 0
    ensures InOrder(KeepaliveStep(h, delay))
  {
  }

  /** Every step of a stream, late or lossy as it may be, keeps it in order. */
  lemma StreamInOrder(h: Half, e: Event)
    requires InOrder(h) && Ready(h.sender) && Ready(h.receiver) && Possible(h, e)
    ensures InOrder(StreamStep(h, e))
  {
    match e
    case Capture(timestamp, droppable, delay) => CaptureInOrder(h, timestamp, droppable, delay);
    case AudioArrives(k) =>
      WithoutMembers(h.link.audio, k);
      assert h.link.audio[k] in h.link.audio;
    case AudioLost(k) => WithoutMembers(h.link.audio, k);
    case KeepaliveFires(delay) => KeepaliveInOrder(h, delay);
    case EchoArrives(k) => EchoInOrder(h, k);
    case EchoLost(k) => WithoutMembers(h.link.echoes, k);
    case CheckFires(_) =>
  }

  // No false alarm

  /** While the echo is coming in time, the sender is not stale. */
  lemma NotStale(h: Half, delay: nat)
    requires InOrder(h) && Ready(h.receiver) && OnTime(h, delay) && PromptEnough(h, delay)
    ensures !Stale(h.sender, h.now)
  {
    if h.sender.echoed < h.sender.sent {
      assert h.now <= h.sender.echoStart + h.receiver.interval * 1000 + 2 * delay;
    }
  }

  /** Everything the sender waits for is in flight or with the receiver, so the next echo is coming. */
  lemma FreshWait(h: Half, delay: nat)
    requires InOrder(h) && Ready(h.receiver)
    requires forall p | p in h.link.audio + h.link.echoes :: h.now <= p.due <= h.now + delay
    requires h.receiver.latest > 0 ==>
      h.receiver.keepaliveTimer in h.receiver.timers
      && KeepaliveTime(h.receiver) <= h.now + h.receiver.interval * 1000
    requires h.sender.sent > h.receiver.latest ==> exists p :: p in h.link.audio && p.timestamp == h.sender.sent
    requires h.sender.echoed < h.sender.sent
    ensures EchoComing(h, h.now + h.receiver.interval * 1000 + 2 * delay, delay)
  {
    if h.sender.sent > h.receiver.latest {
      var p :| p in h.link.audio && p.timestamp == h.sender.sent;
      assert p in h.link.audio + h.link.echoes;
    }
  }

  lemma CaptureOnTime(h: Half, timestamp: int, droppable: bool, d: nat, delay: nat)
    requires InOrder(h) && Ready(h.sender) && Ready(h.receiver) && OnTime(h, delay) && PromptEnough(h, delay)
    requires d <= delay
    ensures OnTime(CaptureStep(h, timestamp, droppable, d), delay)
    ensures MaySend(h.sender, timestamp, droppable, h.now).1
    ensures CaptureStep(h, timestamp, droppable, d).sender.stops == h.sender.stops
  {
    NotStale(h, delay);
    var g, new' := CaptureStep(h, timestamp, droppable, d), Packet(timestamp, h.now + d);
    assert g.link.audio == h.link.audio + [new'];
    assert new' in g.link.audio && forall p | p in h.link.audio :: p in g.link.audio;
    assert forall p | p in g.link.audio :: p in h.link.audio || p == new';
    CaptureEchoComing(h, g, new', delay);
  }

  lemma CaptureEchoComing(h: Half, g: Half, new': Packet, delay: nat)
    requires InOrder(h) && Ready(h.sender) && Ready(h.receiver) && OnTime(h, delay)
    requires g.now == h.now && g.receiver == h.receiver && g.link.echoes == h.link.echoes
    requires g.sender.echoed == h.sender.echoed
    requires new' in g.link.audio && forall p | p in h.link.audio :: p in g.link.audio
    requires h.now <= new'.due <= h.now + delay
    requires g.sender.sent == Max(h.sender.sent, new'.timestamp)
    requires g.sender.echoStart ==
      if h.sender.echoStart == 0 && new'.timestamp > h.sender.sent then h.now else h.sender.echoStart
    ensures g.sender.echoed < g.sender.sent ==>
      EchoComing(g, g.sender.echoStart + g.receiver.interval * 1000 + 2 * delay, delay)
  {
    if h.sender.echoed < h.sender.sent {
      assert EchoComing(h, g.sender.echoStart + g.receiver.interval * 1000 + 2 * delay, delay);
    }
  }

  lemma AudioOnTime(h: Half, k: nat, delay: nat)
    requires InOrder(h) && Ready(h.receiver) && OnTime(h, delay) && k < |h.link.audio|
    ensures OnTime(StreamStep(h, AudioArrives(k)), delay)
  {
    var g, one := StreamStep(h, AudioArrives(k)), h.link.audio[k];
    WithoutMembers(h.link.audio, k);
    assert one in h.link.audio && one in h.link.audio + h.link.echoes;
    assert forall p | p in g.link.audio + g.link.echoes :: p in h.link.audio + h.link.echoes;
    if h.sender.echoed < h.sender.sent {
      AudioEchoComing(h, g, one, h.sender.echoStart + h.receiver.interval * 1000 + 2 * delay, delay);
    }
  }

  lemma AudioEchoComing(h: Half, g: Half, one: Packet, limit: int, delay: nat)
    requires InOrder(h) && Ready(h.receiver) && OnTime(h, delay)
    requires EchoComing(h, limit, delay)
    requires one in h.link.audio && h.now <= one.due
    requires g.now == h.now && g.sender == h.sender && g.link.echoes == h.link.echoes
    requires g.receiver == Received(h.receiver, one.timestamp, h.now)
    requires forall p | p in h.link.audio :: p == one || p in g.link.audio
    ensures EchoComing(g, limit, delay)
  {
    if p :| p in h.link.audio && p.timestamp > h.sender.echoed
            && p.due + h.receiver.interval * 1000 + delay <= limit {
      if p == one {
        assert g.receiver.latest >= one.timestamp > h.sender.echoed;
        assert KeepaliveTime(g.receiver) <= h.now + h.receiver.interval * 1000;
      }
    }
  }

  lemma KeepaliveOnTime(h: Half, d: nat, delay: nat)
    requires InOrder(h) && Ready(h.receiver) && OnTime(h, delay) && d <= delay
    requires Possible(h, KeepaliveFires(d))
    ensures OnTime(KeepaliveStep(h, d), delay)
  {
    var g, echo := KeepaliveStep(h, d), Packet(h.receiver.latest, h.now + d);
    assert h.receiver.latest > 0 && KeepaliveTime(h.receiver) == h.now;
    assert g.link.echoes == h.link.echoes + [echo];
    assert echo in g.link.echoes && forall p | p in h.link.echoes :: p in g.link.echoes;
    assert forall p | p in g.link.audio + g.link.echoes :: p in h.link.audio + h.link.echoes || p == echo;
    if h.sender.echoed < h.sender.sent {
      KeepaliveEchoComing(h, g, echo, h.sender.echoStart + h.receiver.interval * 1000 + 2 * delay, delay);
    }
  }

  lemma KeepaliveEchoComing(h: Half, g: Half, echo: Packet, limit: int, delay: nat)
    requires Ready(h.receiver) && h.receiver.latest > 0 && g.receiver.latest == h.receiver.latest
    requires h.receiver.keepaliveTimer in h.receiver.timers && KeepaliveTime(h.receiver) == h.now
    requires EchoComing(h, limit, delay)
    requires g.receiver.interval == h.receiver.interval && g.receiver.keepaliveTimer in g.receiver.timers
    requires g.sender == h.sender && g.link.audio == h.link.audio
    requires echo in g.link.echoes && forall p | p in h.link.echoes :: p in g.link.echoes
    requires echo.timestamp == h.receiver.latest && echo.due <= h.now + delay
    ensures EchoComing(g, limit, delay)
  {
  }

  lemma EchoOnTime(h: Half, k: nat, delay: nat)
    requires InOrder(h) && Ready(h.receiver) && OnTime(h, delay) && k < |h.link.echoes|
    ensures OnTime(EchoStep(h, k), delay)
  {
    var g, one := EchoStep(h, k), h.link.echoes[k];
    WithoutMembers(h.link.echoes, k);
    EchoInOrder(h, k);
    assert forall p | p in g.link.audio + g.link.echoes :: p in h.link.audio + h.link.echoes;
    if one.timestamp > h.sender.echoed {
      if g.sender.echoed < g.sender.sent {
        FreshWait(g, delay);
      }
    } else if h.sender.echoed < h.sender.sent {
      EchoEchoComing(h, g, one, h.sender.echoStart + h.receiver.interval * 1000 + 2 * delay, delay);
    }
  }

  lemma EchoEchoComing(h: Half, g: Half, one: Packet, limit: int, delay: nat)
    requires h.receiver.latest > 0 ==> h.receiver.keepaliveTimer in h.receiver.timers
    requires EchoComing(h, limit, delay) && one.timestamp <= h.sender.echoed
    requires g.receiver == h.receiver && g.sender == h.sender && g.link.audio == h.link.audio
    requires forall p | p in h.link.echoes :: p == one || p in g.link.echoes
    ensures EchoComing(g, limit, delay)
  {
  }

  /** Every step of a prompt stream keeps it on time, and never stops the audio. */
  lemma StreamOnTime(h: Half, e: Event, delay: nat)
    requires InOrder(h) && Ready(h.sender) && Ready(h.receiver) && OnTime(h, delay) && PromptEnough(h, delay)
    requires Possible(h, e) && !e.AudioLost? && !e.EchoLost?
    requires e.Capture? || e.KeepaliveFires? ==> e.delay <= delay
    ensures OnTime(StreamStep(h, e), delay)
    ensures StreamStep(h, e).sender.stops == h.sender.stops
  {
    match e
    case Capture(timestamp, droppable, d) => CaptureOnTime(h, timestamp, droppable, d, delay);
    case AudioArrives(k) => AudioOnTime(h, k, delay);
    case KeepaliveFires(d) => KeepaliveOnTime(h, d, delay);
    case EchoArrives(k) => EchoOnTime(h, k, delay);
    case CheckFires(droppable) => NotStale(h, delay);
  }
}
