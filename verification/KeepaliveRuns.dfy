/** The keepalive over whole runs of the pair, both streams at once. */
module KeepaliveRuns {
  import opened KeepaliveSpec
  import opened KeepaliveNetwork
  import opened KeepaliveSafety

  // A step of one stream leaves the other alone

  predicate SenderPartKept(e: Endpoint, f: Endpoint) {
    f.sent == e.sent && f.echoed == e.echoed && f.echoStart == e.echoStart && f.timeout == e.timeout
  }

  predicate ReceiverPartKept(e: Endpoint, f: Endpoint) {
    && f.latest == e.latest && f.interval == e.interval && f.keepaliveTimer == e.keepaliveTimer
    && (e.keepaliveTimer in e.timers ==>
          e.keepaliveTimer in f.timers && f.timers[e.keepaliveTimer] == e.timers[e.keepaliveTimer])
  }

  lemma SenderStays(h: Half, e: Event)
    requires Ready(h.receiver) && Possible(h, e)
    ensures SenderPartKept(h.receiver, StreamStep(h, e).receiver)
  {
  }

  lemma ReceiverStays(h: Half, e: Event)
    requires Ready(h.sender) && Possible(h, e)
    ensures ReceiverPartKept(h.sender, StreamStep(h, e).sender)
  {
  }

  lemma PartsKept(h: Half, e: Event)
    requires Ready(h.sender) && Ready(h.receiver) && Possible(h, e)
    ensures SenderPartKept(h.receiver, StreamStep(h, e).receiver)
    ensures ReceiverPartKept(h.sender, StreamStep(h, e).sender)
  {
    SenderStays(h, e);
    ReceiverStays(h, e);
  }

  lemma StaysReady(h: Half, e: Event)
    requires Ready(h.sender) && Ready(h.receiver) && Possible(h, e)
    ensures Ready(StreamStep(h, e).sender) && Ready(StreamStep(h, e).receiver)
  {
    match e
    case Capture(timestamp, droppable, _) =>
      TimersUntouched(h.sender, timestamp, droppable, h.now);
      SchedulingKeepsTimers(MaySend(h.sender, timestamp, droppable, h.now).0, h.now);
    case AudioArrives(k) => ReceivingKeepsTimers(h.receiver, h.link.audio[k].timestamp, h.now);
    case KeepaliveFires(_) => FiringKeepsTimers(h.receiver, h.receiver.keepaliveTimer, false, h.now);
    case EchoArrives(k) => TimersUntouched(h.sender, h.link.echoes[k].timestamp, false, h.now);
    case CheckFires(droppable) => FiringKeepsTimers(h.sender, h.sender.checkTimer, droppable, h.now);
    case _ =>
  }

  lemma OtherStreamInOrder(g: Half, f: Half)
    requires InOrder(g)
    requires SenderPartKept(g.sender, f.sender) && ReceiverPartKept(g.receiver, f.receiver)
    requires f.now == g.now && f.link == g.link && f.watch == g.watch
    ensures InOrder(f)
  {
  }

  lemma OtherStreamOnTime(g: Half, f: Half, delay: nat)
    requires OnTime(g, delay)
    requires SenderPartKept(g.sender, f.sender) && ReceiverPartKept(g.receiver, f.receiver)
    requires f.now == g.now && f.link == g.link
    ensures OnTime(f, delay)
  {
  }

  // Every reachable state

  ghost predicate Sound(n: Net) {
    && Ready(n.left) && Ready(n.right)
    && InOrder(HalfOf(n, true)) && InOrder(HalfOf(n, false))
  }

  ghost predicate Timely(n: Net, delay: nat) {
    && OnTime(HalfOf(n, true), delay) && OnTime(HalfOf(n, false), delay)
    && n.left.stops == n.right.stops == 0
  }

  predicate BothPromptEnough(n: Net, delay: nat) {
    PromptEnough(HalfOf(n, true), delay) && PromptEnough(HalfOf(n, false), delay)
  }

  lemma StreamKeeps(n: Net, l: bool, e: Event)
    requires Sound(n) && Possible(HalfOf(n, l), e)
    ensures Sound(Next(n, Stream(l, e)))
  {
    var h, g := HalfOf(n, l), HalfOf(n, !l);
    StaysReady(h, e);
    StreamInOrder(h, e);
    PartsKept(h, e);
    OtherStreamInOrder(g, HalfOf(Next(n, Stream(l, e)), !l));
  }

  lemma StreamKeepsTime(n: Net, l: bool, e: Event, delay: nat)
    requires Sound(n) && Timely(n, delay) && BothPromptEnough(n, delay)
    requires Allowed(n, Stream(l, e), true, delay)
    ensures Timely(Next(n, Stream(l, e)), delay)
  {
    var h, g := HalfOf(n, l), HalfOf(n, !l);
    StreamOnTime(h, e, delay);
    PartsKept(h, e);
    ReceiverStops(h, e);
    OtherStreamOnTime(g, HalfOf(Next(n, Stream(l, e)), !l), delay);
  }

  lemma ReceiverStops(h: Half, e: Event)
    requires Ready(h.receiver) && Possible(h, e)
    ensures StreamStep(h, e).receiver.stops == h.receiver.stops
  {
  }

  lemma WaitKeeps(n: Net, until: int)
    requires Sound(n) && until >= n.now
    ensures Sound(Next(n, Wait(until)))
  {
  }

  lemma WaitKeepsTime(n: Net, until: int, delay: nat)
    requires Sound(n) && Timely(n, delay) && until >= n.now && NothingOverdue(n, until)
    ensures Timely(Next(n, Wait(until)), delay)
  {
    HalfWaits(HalfOf(n, true), until, delay);
    HalfWaits(HalfOf(n, false), until, delay);
  }

  lemma HalfWaits(h: Half, until: int, delay: nat)
    requires Ready(h.receiver) && OnTime(h, delay) && until >= h.now
    requires forall p | p in h.link.audio + h.link.echoes :: until <= p.due
    requires forall id | id in h.receiver.timers :: until <= h.receiver.timers[id].due
    ensures OnTime(h.(now := until), delay)
  {
    if h.sender.echoed < h.sender.sent {
      assert EchoComing(h.(now := until), h.sender.echoStart + h.receiver.interval * 1000 + 2 * delay, delay);
    }
  }

  predicate SameSettings(e: Endpoint, f: Endpoint) {
    f.interval == e.interval && f.timeout == e.timeout
  }

  lemma StreamKeepsSettings(h: Half, e: Event)
    requires Possible(h, e)
    ensures SameSettings(h.sender, StreamStep(h, e).sender)
    ensures SameSettings(h.receiver, StreamStep(h, e).receiver)
  {
  }

  /** A step changes neither end's interval nor timeout. */
  lemma SettingsKept(n: Net, s: Step)
    requires s.Stream? ==> Possible(HalfOf(n, s.l), s.event)
    ensures SameSettings(n.left, Next(n, s).left) && SameSettings(n.right, Next(n, s).right)
  {
    if s.Stream? {
      StreamKeepsSettings(HalfOf(n, s.l), s.event);
    }
  }

  lemma StartSound(n: Net, delay: nat)
    requires Connected(n)
    ensures Sound(n) && Timely(n, delay)
  {
    assert n.left in {n.left, n.right} && n.right in {n.left, n.right};
  }

  /** Echoes and clocks keep their meaning in every state of every run, prompt or not. */
  lemma {:induction false} EveryStateSound(run: seq<Net>, steps: seq<Step>, prompt: bool, delay: nat, k: nat)
    requires IsRun(run, steps, prompt, delay) && k < |run|
    ensures Sound(run[k])
    ensures BothPromptEnough(run[k], delay) <==> BothPromptEnough(run[0], delay)
  {
    if k == 0 {
      StartSound(run[0], delay);
    } else {
      EveryStateSound(run, steps, prompt, delay, k - 1);
      SettingsKept(run[k - 1], steps[k - 1]);
      match steps[k - 1]
      case Stream(l, e) => StreamKeeps(run[k - 1], l, e);
      case Wait(until) => WaitKeeps(run[k - 1], until);
    }
  }

  lemma {:induction false} EveryStateTimely(run: seq<Net>, steps: seq<Step>, delay: nat, k: nat)
    requires IsRun(run, steps, true, delay) && k < |run| && BothPromptEnough(run[0], delay)
    ensures Timely(run[k], delay)
  {
    if k == 0 {
      StartSound(run[0], delay);
    } else {
      EveryStateTimely(run, steps, delay, k - 1);
      EveryStateSound(run, steps, true, delay, k - 1);
      match steps[k - 1]
      case Stream(l, e) => StreamKeepsTime(run[k - 1], l, e, delay);
      case Wait(until) => WaitKeepsTime(run[k - 1], until, delay);
    }
  }

  /**
   * No false alarm: when each end's interval plus a round trip fits in the other's
   * timeout, no end is stale in any state of any prompt run, gaps of any length
   * included, and audio is never stopped.
   */
  lemma NoFalseAlarm(run: seq<Net>, steps: seq<Step>, delay: nat, k: nat)
    requires IsRun(run, steps, true, delay) && k < |run| && BothPromptEnough(run[0], delay)
    ensures !Stale(run[k].left, run[k].now) && !Stale(run[k].right, run[k].now)
    ensures run[k].left.stops == run[k].right.stops == 0
  {
    EveryStateTimely(run, steps, delay, k);
    EveryStateSound(run, steps, true, delay, k);
    NotStale(HalfOf(run[k], true), delay);
    NotStale(HalfOf(run[k], false), delay);
  }

  /**
   * What an alarm means, in any run: data has been outstanding, and no echo has
   * advanced, for longer than the timeout; and whenever that is so the alarm is on.
   */
  lemma AlarmMeaning(run: seq<Net>, steps: seq<Step>, prompt: bool, delay: nat, k: nat, l: bool)
    requires IsRun(run, steps, prompt, delay) && k < |run|
    ensures var h := HalfOf(run[k], l);
      && h.sender.echoed <= h.receiver.latest <= h.sender.sent
      && (Stale(h.sender, h.now) <==> Silent(h.sender, h.watch, h.now))
  {
    EveryStateSound(run, steps, prompt, delay, k);
  }

  /** In every run the timer fields are exactly the armed timers, at most one of each kind. */
  lemma TimersAccountedFor(run: seq<Net>, steps: seq<Step>, prompt: bool, delay: nat, k: nat, e: Endpoint)
    requires IsRun(run, steps, prompt, delay) && k < |run| && (e == run[k].left || e == run[k].right)
    ensures forall id | id in e.timers :: id == e.keepaliveTimer || id == e.checkTimer
    ensures forall i, j | i in e.timers && j in e.timers && e.timers[i].kind == e.timers[j].kind :: i == j
  {
    EveryStateSound(run, steps, prompt, delay, k);
  }
}
