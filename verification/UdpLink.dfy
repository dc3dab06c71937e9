/** One peer of the UDP transport, src/transport/udp/mod.rs: its link state, its pinger with the wake-up protocol, its
    receiver and its senders, interleaving. Times are in milliseconds of an ideal clock. */
module UdpLink {
  import opened Wire

  const KEEP_ALIVE_INTERVAL: nat := 3000
  const KEEP_ALIVE_TIMEOUT: nat := 10000

  datatype Ingress = Ingress(time: nat, egressWorks: bool)

  /** `State`: what the transport knows of its peer. */
  datatype Link = Link(lastIngress: Option<Ingress>, lastEgress: Option<nat>, needsAck: bool)

  predicate TimedOut(packet: Ingress, now: nat) {
    KEEP_ALIVE_TIMEOUT <= now - packet.time
  }

  /** A datagram has come in recently: this is what the marker tells the peer. */
  predicate Fresh(link: Link, now: nat) {
    link.lastIngress.Some? && !TimedOut(link.lastIngress.value, now)
  }

  predicate Connected(link: Link, now: nat) {
    Fresh(link, now) && link.lastIngress.value.egressWorks
  }

  function OnIngress(link: Link, egressWorks: bool, now: nat): Link {
    link.(needsAck := link.needsAck || !Fresh(link, now), lastIngress := Some(Ingress(now, egressWorks)))
  }

  /** Sending one datagram: the marker is chosen, the datagram handed to the socket, the time taken, and then stored. */
  datatype Emission = Marked(marker: bool) | Emitted | Stamped(time: nat)

  datatype Pinger = Waiting(next: nat) | Awake(next: nat) | Pinging(emission: Emission)

  /** `permit`: the stored notification. `notifying`: the receiver has seen a first packet and is about to notify. */
  datatype Peer = Peer(link: Link, pinger: Pinger, permit: bool, notifying: bool, senders: map<nat, Emission>)

  /** A transport that has just been created. */
  function NewPeer(now: nat): Peer {
    Peer(Link(None, None, false), Waiting(now), false, false, map[])
  }

  /** `who` is a sender, or None for the pinger. */
  datatype Step =
    | TimerFires
    | TakePermit
    | Check
    | StartSend(t: nat)
    | Emit(who: Option<nat>)
    | Stamp(who: Option<nat>)
    | Store(who: Option<nat>)
    | Receive(egressWorks: bool)
    | Notify

  function EmissionOf(p: Peer, who: Option<nat>): Option<Emission> {
    match who
    case None => if p.pinger.Pinging? then Some(p.pinger.emission) else None
    case Some(t) => if t in p.senders then Some(p.senders[t]) else None
  }

  function SetEmission(p: Peer, who: Option<nat>, e: Emission): Peer {
    match who
    case None => p.(pinger := Pinging(e))
    case Some(t) => p.(senders := p.senders[t := e])
  }

  predicate Enabled(p: Peer, now: nat, step: Step) {
    match step
    case TimerFires => p.pinger.Waiting? && p.pinger.next <= now
    case TakePermit => p.pinger.Waiting? && p.permit
    case Check => p.pinger.Awake?
    case StartSend(t) => t !in p.senders
    case Emit(who) => EmissionOf(p, who).Some? && EmissionOf(p, who).value.Marked?
    case Stamp(who) => EmissionOf(p, who) == Some(Emitted)
    case Store(who) => EmissionOf(p, who).Some? && EmissionOf(p, who).value.Stamped?
    case Receive(_) => !p.notifying
    case Notify => p.notifying
  }

  /** The pinger's critical section: acknowledge, or go back to sleep if something was sent meanwhile, or ping. */
  function CheckPing(p: Peer, now: nat): Peer
    requires p.pinger.Awake?
  {
    var ping := Pinging(Marked(Fresh(p.link, now)));
    if p.link.needsAck then p.(link := p.link.(needsAck := false), pinger := ping)
    else if p.link.lastEgress.Some? && now < p.link.lastEgress.value + KEEP_ALIVE_INTERVAL then
      p.(pinger := Waiting(p.link.lastEgress.value + KEEP_ALIVE_INTERVAL))
    else p.(pinger := ping)
  }

  function Apply(p: Peer, now: nat, step: Step): Peer
    requires Enabled(p, now, step)
  {
    match step
    case TimerFires => p.(pinger := Awake(p.pinger.next))
    case TakePermit => p.(pinger := Awake(p.pinger.next), permit := false)
    case Check => CheckPing(p, now)
    case StartSend(t) => p.(senders := p.senders[t := Marked(Fresh(p.link, now))])
    case Emit(who) => SetEmission(p, who, Emitted)
    case Stamp(who) => SetEmission(p, who, Stamped(now))
    case Store(who) =>
      var time := EmissionOf(p, who).value.time;
      var link := p.link.(lastEgress := Some(time));
      if who.None? then p.(link := link, pinger := Waiting(time + KEEP_ALIVE_INTERVAL))
      else p.(link := link, senders := p.senders - {who.value})
    case Receive(egressWorks) => p.(link := OnIngress(p.link, egressWorks, now), notifying := !Fresh(p.link, now))
    case Notify => p.(notifying := false, permit := true)
  }

  /** Nothing is left to do until the ping timer: the instants at which an ideal clock may advance. */
  predicate Quiet(p: Peer, now: nat) {
    p.pinger.Waiting? && now < p.pinger.next && !p.permit && !p.notifying && p.senders == map[]
  }

  /** The clock advances by `d`, but never past a timer. */
  predicate CanTick(p: Peer, now: nat, d: nat) {
    0 < d && Quiet(p, now) && now + d <= p.pinger.next
  }

  // ---------------------------------------------------------------- the invariant

  /** A wanted acknowledgement has a wake-up on its way: a stored permit, a notification about to be issued, or a pinger
      that is already awake. */
  predicate AckPromised(p: Peer) {
    p.link.needsAck ==> p.permit || p.notifying || p.pinger.Awake?
  }

  /** The ping timer is never set later than one interval after the last egress datagram. */
  predicate PingDue(p: Peer, now: nat) {
    !p.pinger.Pinging? ==>
      if p.link.lastEgress.Some? then p.pinger.next <= p.link.lastEgress.value + KEEP_ALIVE_INTERVAL
      else p.pinger.next <= now
  }

  predicate StampedNow(e: Emission, now: nat) {
    e.Stamped? ==> e.time == now
  }

  ghost predicate PeerOk(p: Peer, now: nat) {
    && AckPromised(p) && PingDue(p, now)
    && (p.link.needsAck ==> p.link.lastIngress.Some? && p.link.lastIngress.value.time == now)
    && (p.link.lastIngress.Some? ==> p.link.lastIngress.value.time <= now)
    && (p.link.lastEgress.Some? ==> p.link.lastEgress.value <= now <= p.link.lastEgress.value + KEEP_ALIVE_INTERVAL)
    && (p.pinger.Pinging? ==> StampedNow(p.pinger.emission, now))
    && (forall t :: t in p.senders ==> StampedNow(p.senders[t], now))
  }

  lemma PingerStepKeepsPeer(p: Peer, now: nat, step: Step)
    requires PeerOk(p, now) && Enabled(p, now, step) && (step.TimerFires? || step.TakePermit? || step.Check?)
    ensures PeerOk(Apply(p, now, step), now)
  {
  }

  lemma EmissionStepKeepsPeer(p: Peer, now: nat, step: Step)
    requires PeerOk(p, now) && Enabled(p, now, step)
    requires step.StartSend? || step.Emit? || step.Stamp? || step.Store?
    ensures PeerOk(Apply(p, now, step), now)
  {
  }

  lemma ReceiverStepKeepsPeer(p: Peer, now: nat, step: Step)
    requires PeerOk(p, now) && Enabled(p, now, step) && (step.Receive? || step.Notify?)
    ensures PeerOk(Apply(p, now, step), now)
  {
  }

  lemma StepKeepsPeer(p: Peer, now: nat, step: Step)
    requires PeerOk(p, now) && Enabled(p, now, step)
    ensures PeerOk(Apply(p, now, step), now)
  {
    if step.TimerFires? || step.TakePermit? || step.Check? {
      PingerStepKeepsPeer(p, now, step);
    } else if step.Receive? || step.Notify? {
      ReceiverStepKeepsPeer(p, now, step);
    } else {
      EmissionStepKeepsPeer(p, now, step);
    }
  }

  lemma TickKeepsPeer(p: Peer, now: nat, d: nat)
    requires PeerOk(p, now) && CanTick(p, now, d)
    ensures PeerOk(p, now + d)
  {
  }

  // ---------------------------------------------------------------- runs of one peer

  /** What happens to a peer: its own steps and datagrams arriving at any time, or the clock advancing. */
  datatype Event = Now(step: Step) | Later(d: nat)

  predicate Feasible(p: Peer, now: nat, run: seq<Event>)
    decreases |run|
  {
    run == [] ||
    match run[0]
    case Now(step) => Enabled(p, now, step) && Feasible(Apply(p, now, step), now, run[1..])
    case Later(d) => CanTick(p, now, d) && Feasible(p, now + d, run[1..])
  }

  function After(p: Peer, now: nat, run: seq<Event>): (Peer, nat)
    requires Feasible(p, now, run)
    decreases |run|
  {
    if run == [] then (p, now)
    else
      match run[0]
      case Now(step) => After(Apply(p, now, step), now, run[1..])
      case Later(d) => After(p, now + d, run[1..])
  }

  lemma {:induction false} RunKeepsPeer(p: Peer, now: nat, run: seq<Event>)
    requires PeerOk(p, now) && Feasible(p, now, run)
    ensures PeerOk(After(p, now, run).0, After(p, now, run).1)
    decreases |run|
  {
    if run == [] {
    } else {
      match run[0]
      case Now(step) =>
        StepKeepsPeer(p, now, step);
        RunKeepsPeer(Apply(p, now, step), now, run[1..]);
      case Later(d) =>
        TickKeepsPeer(p, now, d);
        RunKeepsPeer(p, now + d, run[1..]);
    }
  }

  lemma {:induction false} EgressStays(p: Peer, now: nat, run: seq<Event>)
    requires Feasible(p, now, run) && p.link.lastEgress.Some?
    ensures After(p, now, run).0.link.lastEgress.Some?
    decreases |run|
  {
    if run == [] {
    } else {
      match run[0]
      case Now(step) => EgressStays(Apply(p, now, step), now, run[1..]);
      case Later(d) => EgressStays(p, now + d, run[1..]);
    }
  }

  /** The clock does not advance before the first datagram is out. */
  lemma {:induction false} NoTimeBeforeEgress(p: Peer, now: nat, run: seq<Event>)
    requires PeerOk(p, now) && Feasible(p, now, run) && p.link.lastEgress.None?
    ensures var (q, later) := After(p, now, run); q.link.lastEgress.None? ==> later == now
    decreases |run|
  {
    if run == [] {
    } else {
      match run[0]
      case Now(step) =>
        StepKeepsPeer(p, now, step);
        if Apply(p, now, step).link.lastEgress.None? {
          NoTimeBeforeEgress(Apply(p, now, step), now, run[1..]);
        } else {
          EgressStays(Apply(p, now, step), now, run[1..]);
        }
      case Later(d) =>
    }
  }

  /** In every reachable state: a wanted acknowledgement has its wake-up, and goes out with the marker set before the
      clock advances; the ping timer is at most one interval after the last egress; and egress is never idle for
      longer. */
  lemma NeverIdleNeverUnacknowledged(start: nat, run: seq<Event>)
    requires Feasible(NewPeer(start), start, run)
    ensures var (p, now) := After(NewPeer(start), start, run);
      && AckPromised(p)
      && (p.pinger.Awake? && p.link.needsAck ==> Apply(p, now, Check).pinger == Pinging(Marked(true)))
      && (Quiet(p, now) ==> !p.link.needsAck && p.link.lastEgress.Some?)
      && (p.pinger.Waiting? && p.link.lastEgress.Some?
        ==> p.pinger.next <= p.link.lastEgress.value + KEEP_ALIVE_INTERVAL)
      && (if p.link.lastEgress.Some? then now <= p.link.lastEgress.value + KEEP_ALIVE_INTERVAL else now == start)
  {
    RunKeepsPeer(NewPeer(start), start, run);
    NoTimeBeforeEgress(NewPeer(start), start, run);
  }

  // ---------------------------------------------------------------- progress at one instant

  /** A step of a peer's tasks that starts nothing new. */
  predicate Own(step: Step) {
    !step.Receive? && !step.StartSend?
  }

  function EmissionLoad(e: Emission): nat {
    match e
    case Marked(_) => 4
    case Emitted => 2
    case Stamped(_) => 1
  }

  /** The senders whose emission has that load. */
  function SendersAt(senders: map<nat, Emission>, load: nat): set<nat> {
    set t | t in senders && EmissionLoad(senders[t]) == load
  }

  function SenderLoad(senders: map<nat, Emission>): nat {
    4 * |SendersAt(senders, 4)| + 2 * |SendersAt(senders, 2)| + |SendersAt(senders, 1)|
  }

  lemma SendersWithout(senders: map<nat, Emission>, t: nat, load: nat)
    requires t in senders
    ensures |SendersAt(senders, load)| ==
            |SendersAt(senders - {t}, load)| + if EmissionLoad(senders[t]) == load then 1 else 0
  {
    var rest := SendersAt(senders - {t}, load);
    if EmissionLoad(senders[t]) == load {
      assert SendersAt(senders, load) == rest + {t};
    } else {
      assert SendersAt(senders, load) == rest;
    }
  }

  lemma LoadWithout(senders: map<nat, Emission>, t: nat)
    requires t in senders
    ensures SenderLoad(senders) == SenderLoad(senders - {t}) + EmissionLoad(senders[t])
  {
    SendersWithout(senders, t, 4);
    SendersWithout(senders, t, 2);
    SendersWithout(senders, t, 1);
  }

  lemma LoadWith(senders: map<nat, Emission>, t: nat, e: Emission)
    requires t in senders
    ensures SenderLoad(senders[t := e]) + EmissionLoad(senders[t]) == SenderLoad(senders) + EmissionLoad(e)
  {
    LoadWithout(senders, t);
    LoadWithout(senders[t := e], t);
    assert senders[t := e] - {t} == senders - {t};
  }

  function PingerLoad(pinger: Pinger, now: nat): nat {
    match pinger
    case Waiting(next) => if next <= now then 7 else 0
    case Awake(_) => 6
    case Pinging(e) => EmissionLoad(e) + 1
  }

  /** What a peer has left to do at this instant. */
  function PeerLoad(p: Peer, now: nat): nat {
    SenderLoad(p.senders) + PingerLoad(p.pinger, now) + (if p.permit then 8 else 0) + if p.notifying then 9 else 0
  }

  lemma EmissionLowersLoad(p: Peer, now: nat, step: Step)
    requires PeerOk(p, now) && Enabled(p, now, step) && (step.Emit? || step.Stamp? || step.Store?)
    ensures PeerLoad(Apply(p, now, step), now) + (if step.Emit? then 2 else 1) <= PeerLoad(p, now)
  {
    match step.who
    case None =>
    case Some(t) =>
      if step.Store? {
        LoadWithout(p.senders, t);
      } else {
        LoadWith(p.senders, t, if step.Emit? then Emitted else Stamped(now));
      }
  }

  /** Every step that a peer's tasks take by themselves brings it closer to having nothing to do at this instant. */
  lemma OwnStepLowersLoad(p: Peer, now: nat, step: Step)
    requires PeerOk(p, now) && Enabled(p, now, step) && Own(step)
    ensures PeerLoad(Apply(p, now, step), now) + (if step.Emit? then 2 else 1) <= PeerLoad(p, now)
  {
    if step.Emit? || step.Stamp? || step.Store? {
      EmissionLowersLoad(p, now, step);
    }
  }

  /** And as long as there is something to do, somebody can do it. */
  lemma QuietOrBusy(p: Peer, now: nat) returns (step: Step)
    requires !Quiet(p, now)
    ensures Own(step) && Enabled(p, now, step)
  {
    if p.notifying {
      step := Notify;
    } else if p.pinger.Awake? {
      step := Check;
    } else if p.pinger.Pinging? {
      step := NextOf(None, p.pinger.emission);
    } else if p.permit {
      step := TakePermit;
    } else if p.pinger.next <= now {
      step := TimerFires;
    } else {
      var t :| t in p.senders;
      step := NextOf(Some(t), p.senders[t]);
    }
  }

  function NextOf(who: Option<nat>, e: Emission): Step {
    match e
    case Marked(_) => Emit(who)
    case Emitted => Stamp(who)
    case Stamped(_) => Store(who)
  }
}
