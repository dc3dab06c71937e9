/** Two UDP peers on a FIFO network that from some time on loses at most two datagrams in a row in each direction and
    delays the others by between `minDelay` and `maxDelay`: whatever state the peers are in then, the link comes up
    within a bounded time and stays up. */
module UdpPair {
  import opened Wire
  import opened UdpLink
  import Securer

  const MAX_LOSSES: nat := 2

  /** The network's delays; `epoch`, the UNIX time of the clock's zero in milliseconds; `origin`, from when on the
      network works; and `slack`, how long after that a peer that was running may take until its next datagram. */
  datatype Network = Network(minDelay: nat, maxDelay: nat, epoch: nat, origin: nat, slack: nat)

  /** Less than a second of delay variation, and delays short enough for the securer's timestamp window. */
  predicate Tolerable(net: Network) {
    net.minDelay <= net.maxDelay < net.minDelay + 1000 && net.maxDelay <= 20000
  }

  /** The securer's window: its timestamps are whole seconds. */
  predicate InWindow(sent: nat, now: nat) {
    Securer.InWindow(sent / 1000, now / 1000)
  }

  datatype Datagram = Datagram(time: nat, marker: bool)

  /** One direction: every datagram ever sent, how many of them the network is done with, and the last one delivered. */
  datatype Channel = Channel(sent: seq<Datagram>, head: nat, delivered: Option<nat>)

  const EMPTY_CHANNEL := Channel([], 0, None)

  /** A peer, the channel from it, and when it first heard from the other one. */
  datatype Side = Side(peer: Peer, out: Channel, heard: Option<nat>)

  datatype State = State(left: Side, right: Side, now: nat)

  /** A peer at the network's origin, in whatever state an earlier start, a restart or an outage has left it: with no
      datagram just out but not yet recorded, and due to send within the slack. */
  ghost predicate Opening(net: Network, side: Side) {
    && PeerOk(side.peer, net.origin)
    && (forall who :: EmissionOf(side.peer, who).Some? ==> EmissionOf(side.peer, who).value.Marked?)
    && (side.peer.link.lastEgress.Some? ==>
          side.peer.link.lastEgress.value + KEEP_ALIVE_INTERVAL <= net.origin + net.slack)
    && side.out == EMPTY_CHANNEL && side.heard.None?
  }

  /** A run may begin here. */
  ghost predicate Begins(net: Network, s: State) {
    s.now == net.origin && Opening(net, s.left) && Opening(net, s.right)
  }

  /** Two peers that have just been created, at the same time. */
  function NewPair(origin: nat): State {
    State(Side(NewPeer(origin), EMPTY_CHANNEL, None), Side(NewPeer(origin), EMPTY_CHANNEL, None), origin)
  }

  datatype Step =
    | LeftStep(step: UdpLink.Step)
    | RightStep(step: UdpLink.Step)
    | ToLeft(lost: bool)
    | ToRight(lost: bool)
    | Tick(d: nat)

  /** A peer acts on its own; datagrams come only from the network. */
  predicate CanAct(side: Side, now: nat, step: UdpLink.Step) {
    !step.Receive? && UdpLink.Enabled(side.peer, now, step)
  }

  function Act(side: Side, now: nat, step: UdpLink.Step): Side
    requires CanAct(side, now, step)
  {
    var out :=
      if step.Emit? then
        side.out.(sent := side.out.sent + [Datagram(now, EmissionOf(side.peer, step.who).value.marker)])
      else side.out;
    side.(peer := UdpLink.Apply(side.peer, now, step), out := out)
  }

  function LossesInARow(c: Channel): int {
    c.head - (if c.delivered.Some? then c.delivered.value + 1 else 0)
  }

  /** The oldest datagram in flight is delivered, not before its time and not while the receiver is busy, or lost. */
  predicate CanPass(net: Network, from: Side, to: Side, now: nat, lost: bool) {
    && from.out.head < |from.out.sent|
    && if lost then LossesInARow(from.out) < MAX_LOSSES
       else from.out.sent[from.out.head].time + net.minDelay <= now && !to.peer.notifying
  }

  function Consume(c: Channel, lost: bool): Channel {
    c.(head := c.head + 1, delivered := if lost then c.delivered else Some(c.head))
  }

  /** Delivery: the securer refuses a datagram outside its timestamp window. */
  function Receive(net: Network, from: Side, to: Side, now: nat): Side
    requires from.out.head < |from.out.sent| && !to.peer.notifying
  {
    var datagram := from.out.sent[from.out.head];
    if !InWindow(net.epoch + datagram.time, net.epoch + now) then to
    else to.(peer := UdpLink.Apply(to.peer, now, UdpLink.Receive(datagram.marker)),
             heard := if to.heard.Some? then to.heard else Some(now))
  }

  predicate InTime(net: Network, c: Channel, now: nat) {
    c.head < |c.sent| ==> now <= c.sent[c.head].time + net.maxDelay
  }

  predicate Enabled(net: Network, s: State, step: Step) {
    match step
    case LeftStep(p) => CanAct(s.left, s.now, p)
    case RightStep(p) => CanAct(s.right, s.now, p)
    case ToLeft(lost) => CanPass(net, s.right, s.left, s.now, lost)
    case ToRight(lost) => CanPass(net, s.left, s.right, s.now, lost)
    case Tick(d) =>
      && CanTick(s.left.peer, s.now, d) && CanTick(s.right.peer, s.now, d)
      && InTime(net, s.left.out, s.now + d) && InTime(net, s.right.out, s.now + d)
  }

  function Apply(net: Network, s: State, step: Step): State
    requires Enabled(net, s, step)
  {
    match step
    case LeftStep(p) => s.(left := Act(s.left, s.now, p))
    case RightStep(p) => s.(right := Act(s.right, s.now, p))
    case ToLeft(lost) =>
      s.(left := if lost then s.left else Receive(net, s.right, s.left, s.now),
         right := s.right.(out := Consume(s.right.out, lost)))
    case ToRight(lost) =>
      s.(right := if lost then s.right else Receive(net, s.left, s.right, s.now),
         left := s.left.(out := Consume(s.left.out, lost)))
    case Tick(d) => s.(now := s.now + d)
  }

  // ---------------------------------------------------------------- the invariant

  predicate GapOk(sent: seq<Datagram>, i: nat)
    requires i + 1 < |sent|
  {
    sent[i].time <= sent[i + 1].time <= sent[i].time + KEEP_ALIVE_INTERVAL
  }

  /** Consecutive datagrams are at most one ping interval apart, and the newest one is no older than that. */
  ghost predicate Steady(net: Network, c: Channel, now: nat) {
    && (forall i :: 0 <= i < |c.sent| - 1 ==> GapOk(c.sent, i))
    && (if c.sent == [] then net.origin <= now <= net.origin + net.slack
        else
          && net.origin <= c.sent[0].time <= net.origin + net.slack
          && c.sent[|c.sent| - 1].time <= now <= c.sent[|c.sent| - 1].time + KEEP_ALIVE_INTERVAL)
  }

  /** A datagram handed to the socket at this instant, or stored as the last egress, is in the channel. */
  ghost predicate Recorded(net: Network, side: Side, now: nat) {
    && (side.peer.link.lastEgress.Some? ==>
          if side.out.sent == [] then side.peer.link.lastEgress.value + KEEP_ALIVE_INTERVAL <= net.origin + net.slack
          else side.peer.link.lastEgress.value <= side.out.sent[|side.out.sent| - 1].time)
    && (forall who :: EmissionOf(side.peer, who).Some? && !EmissionOf(side.peer, who).value.Marked? ==>
          side.out.sent != [] && side.out.sent[|side.out.sent| - 1].time == now)
    && (side.out.sent == [] && side.peer.link.lastEgress.None? ==> now == net.origin)
  }

  /** Every datagram about to be sent says that the peer is heard. */
  ghost predicate AllMarked(p: Peer) {
    forall who :: EmissionOf(p, who).Some? && EmissionOf(p, who).value.Marked? ==> EmissionOf(p, who).value.marker
  }

  /** Once a peer has heard the other one, it marks everything it sends. */
  ghost predicate Honest(side: Side, now: nat) {
    side.heard.Some? ==>
      && side.heard.value <= now
      && (forall i :: 0 <= i < |side.out.sent| && side.heard.value < side.out.sent[i].time ==> side.out.sent[i].marker)
      && (side.heard.value < now ==> AllMarked(side.peer))
  }

  ghost predicate SideOk(net: Network, side: Side, now: nat) {
    && PeerOk(side.peer, now)
    && Steady(net, side.out, now) && Recorded(net, side, now) && Honest(side, now)
    && InTime(net, side.out, now)
    && side.out.head <= |side.out.sent| && LossesInARow(side.out) <= MAX_LOSSES
    && (side.out.delivered.Some? ==> side.out.delivered.value < side.out.head)
  }

  /** The time by which a peer has heard the other one for the first time since the origin. */
  function HeardBy(net: Network): nat {
    net.origin + net.slack + MAX_LOSSES * KEEP_ALIVE_INTERVAL + net.maxDelay
  }

  /** What the receiver of a channel knows is its last delivered datagram, once there is one. */
  ghost predicate Heard(net: Network, to: Side, c: Channel) {
    if c.delivered.None? then to.heard.None?
    else
      && c.delivered.value < |c.sent| && to.peer.link.lastIngress.Some?
      && c.sent[c.delivered.value].time + net.minDelay <= to.peer.link.lastIngress.value.time
      && to.peer.link.lastIngress.value.egressWorks == c.sent[c.delivered.value].marker
      && to.heard.Some? && to.heard.value <= HeardBy(net)
  }

  ghost predicate PairOk(net: Network, a: Side, b: Side, now: nat) {
    SideOk(net, a, now) && SideOk(net, b, now) && Heard(net, a, b.out) && Heard(net, b, a.out)
  }

  ghost predicate Inv(net: Network, s: State) {
    PairOk(net, s.left, s.right, s.now)
  }

  /** Three consecutive gaps: two lost datagrams and the next one. */
  lemma GapBound(net: Network, c: Channel, now: nat, i: nat, j: nat)
    requires Steady(net, c, now) && i <= j < |c.sent| && j <= i + 3
    ensures c.sent[i].time <= c.sent[j].time <= c.sent[i].time + KEEP_ALIVE_INTERVAL * (j - i)
    decreases j
  {
    if i == j {
    } else {
      GapBound(net, c, now, i, j - 1);
      assert GapOk(c.sent, j - 1);
    }
  }

  lemma {:induction false} SentByNow(net: Network, c: Channel, now: nat, i: nat)
    requires Steady(net, c, now) && i < |c.sent|
    ensures c.sent[i].time <= now
    decreases |c.sent| - i
  {
    if i + 1 == |c.sent| {
    } else {
      assert GapOk(c.sent, i);
      SentByNow(net, c, now, i + 1);
    }
  }

  /** However the last datagrams fared, the last one delivered was sent recently. */
  lemma DeliveredRecently(net: Network, from: Side, now: nat)
    requires SideOk(net, from, now) && from.out.delivered.Some?
    ensures now <= from.out.sent[from.out.delivered.value].time + (MAX_LOSSES + 1) * KEEP_ALIVE_INTERVAL + net.maxDelay
  {
    var c := from.out;
    if c.head < |c.sent| {
      GapBound(net, c, now, c.delivered.value, c.head);
    } else {
      GapBound(net, c, now, c.delivered.value, c.head - 1);
    }
  }

  lemma NothingDeliveredYet(net: Network, from: Side, now: nat)
    requires SideOk(net, from, now) && from.out.delivered.None?
    ensures now <= HeardBy(net)
  {
    var c := from.out;
    if c.sent != [] {
      GapBound(net, c, now, 0, if c.head < |c.sent| then c.head else c.head - 1);
    }
  }

  /** A peer that has heard the other one never times out: at most nine seconds of silence plus the delay variation. */
  lemma HeardStaysFresh(net: Network, from: Side, to: Side, now: nat)
    requires Tolerable(net) && SideOk(net, from, now) && Heard(net, to, from.out) && from.out.delivered.Some?
    requires PeerOk(to.peer, now)
    ensures Fresh(to.peer.link, now)
  {
    DeliveredRecently(net, from, now);
  }

  /** Where an emission in progress comes from. */
  lemma EmissionAfter(p: Peer, now: nat, step: UdpLink.Step, who: Option<nat>)
    requires UdpLink.Enabled(p, now, step) && EmissionOf(UdpLink.Apply(p, now, step), who).Some?
    ensures var e := EmissionOf(UdpLink.Apply(p, now, step), who).value;
      || EmissionOf(p, who) == Some(e)
      || (step.Emit? && step.who == who && e == Emitted)
      || (step.Stamp? && step.who == who && e == Stamped(now) && EmissionOf(p, who) == Some(Emitted))
      || ((step.Check? || step.StartSend?) && e == Marked(Fresh(p.link, now)))
  {
  }

  lemma ActKeepsAllMarked(p: Peer, now: nat, step: UdpLink.Step)
    requires UdpLink.Enabled(p, now, step) && AllMarked(p)
    requires Fresh(p.link, now)
    ensures AllMarked(UdpLink.Apply(p, now, step))
  {
    forall who | EmissionOf(UdpLink.Apply(p, now, step), who).Some?
      ensures EmissionOf(UdpLink.Apply(p, now, step), who).value.Marked? ==>
                EmissionOf(UdpLink.Apply(p, now, step), who).value.marker
    {
      EmissionAfter(p, now, step, who);
    }
  }

  lemma ActKeepsRecorded(net: Network, side: Side, now: nat, step: UdpLink.Step)
    requires SideOk(net, side, now) && CanAct(side, now, step)
    ensures Recorded(net, Act(side, now, step), now)
  {
    var side' := Act(side, now, step);
    forall who | EmissionOf(side'.peer, who).Some? && !EmissionOf(side'.peer, who).value.Marked?
      ensures side'.out.sent != [] && side'.out.sent[|side'.out.sent| - 1].time == now
    {
      EmissionAfter(side.peer, now, step, who);
    }
  }

  lemma ActKeepsSteady(net: Network, side: Side, now: nat, step: UdpLink.Step)
    requires SideOk(net, side, now) && CanAct(side, now, step)
    ensures Steady(net, Act(side, now, step).out, now) && InTime(net, Act(side, now, step).out, now)
  {
    var c, c' := side.out, Act(side, now, step).out;
    forall i | 0 <= i < |c'.sent| - 1
      ensures GapOk(c'.sent, i)
    {
      if i < |c.sent| - 1 {
        assert GapOk(c.sent, i);
      }
    }
  }

  lemma ActKeepsHonest(net: Network, side: Side, other: Side, now: nat, step: UdpLink.Step)
    requires Tolerable(net) && SideOk(net, side, now) && SideOk(net, other, now) && CanAct(side, now, step)
    requires Heard(net, side, other.out)
    ensures Honest(Act(side, now, step), now)
  {
    if side.heard.Some? && side.heard.value < now {
      HeardStaysFresh(net, other, side, now);
      ActKeepsAllMarked(side.peer, now, step);
    }
  }

  lemma ActKeepsSide(net: Network, side: Side, other: Side, now: nat, step: UdpLink.Step)
    requires Tolerable(net) && SideOk(net, side, now) && SideOk(net, other, now) && CanAct(side, now, step)
    requires Heard(net, side, other.out)
    ensures SideOk(net, Act(side, now, step), now)
    ensures Heard(net, Act(side, now, step), other.out)
  {
    StepKeepsPeer(side.peer, now, step);
    ActKeepsRecorded(net, side, now, step);
    ActKeepsSteady(net, side, now, step);
    ActKeepsHonest(net, side, other, now, step);
  }

  lemma ActKeepsHeardByOther(net: Network, side: Side, other: Side, now: nat, step: UdpLink.Step)
    requires SideOk(net, side, now) && CanAct(side, now, step) && Heard(net, other, side.out)
    ensures Heard(net, other, Act(side, now, step).out)
  {
  }

  lemma PassKeepsSender(net: Network, from: Side, to: Side, now: nat, lost: bool)
    requires SideOk(net, from, now) && CanPass(net, from, to, now, lost)
    ensures SideOk(net, from.(out := Consume(from.out, lost)), now)
  {
    var c := from.out;
    if c.head + 1 < |c.sent| {
      assert GapOk(c.sent, c.head);
    }
  }

  /** The securer accepts everything this network delivers. */
  lemma DeliveredInWindow(net: Network, from: Side, to: Side, now: nat)
    requires Tolerable(net) && SideOk(net, from, now) && CanPass(net, from, to, now, false)
    ensures InWindow(net.epoch + from.out.sent[from.out.head].time, net.epoch + now)
  {
    var sent, at := net.epoch + from.out.sent[from.out.head].time, net.epoch + now;
    assert sent <= at <= sent + 20000;
    assert at / 1000 <= (sent + 20000) / 1000 == sent / 1000 + 20;
  }

  lemma ReceiveKeeps(net: Network, from: Side, to: Side, now: nat)
    requires Tolerable(net) && SideOk(net, from, now) && SideOk(net, to, now) && Heard(net, to, from.out)
    requires CanPass(net, from, to, now, false)
    ensures SideOk(net, Receive(net, from, to, now), now)
    ensures Heard(net, Receive(net, from, to, now), Consume(from.out, false))
  {
    DeliveredInWindow(net, from, to, now);
    var datagram := from.out.sent[from.out.head];
    var step := UdpLink.Receive(datagram.marker);
    StepKeepsPeer(to.peer, now, step);
    var to' := Receive(net, from, to, now);
    assert forall who :: EmissionOf(to'.peer, who) == EmissionOf(to.peer, who);
    forall i | 0 <= i < |to.out.sent|
      ensures to.out.sent[i].time <= now
    {
      SentByNow(net, to.out, now, i);
    }
    if from.out.delivered.None? {
      NothingDeliveredYet(net, from, now);
    }
  }

  lemma TickKeepsSide(net: Network, side: Side, now: nat, d: nat)
    requires SideOk(net, side, now) && CanTick(side.peer, now, d) && InTime(net, side.out, now + d)
    ensures SideOk(net, side, now + d)
  {
    TickKeepsPeer(side.peer, now, d);
    assert forall who :: EmissionOf(side.peer, who).None?;
  }

  lemma ActKeepsPair(net: Network, side: Side, other: Side, now: nat, step: UdpLink.Step)
    requires Tolerable(net) && PairOk(net, side, other, now) && CanAct(side, now, step)
    ensures PairOk(net, Act(side, now, step), other, now)
  {
    ActKeepsSide(net, side, other, now, step);
    ActKeepsHeardByOther(net, side, other, now, step);
  }

  lemma PassKeepsPair(net: Network, from: Side, to: Side, now: nat, lost: bool)
    requires Tolerable(net) && PairOk(net, from, to, now) && CanPass(net, from, to, now, lost)
    ensures PairOk(net, from.(out := Consume(from.out, lost)), if lost then to else Receive(net, from, to, now), now)
  {
    PassKeepsSender(net, from, to, now, lost);
    if !lost {
      ReceiveKeeps(net, from, to, now);
    }
  }

  lemma TickKeepsPair(net: Network, a: Side, b: Side, now: nat, d: nat)
    requires PairOk(net, a, b, now)
    requires CanTick(a.peer, now, d) && CanTick(b.peer, now, d)
    requires InTime(net, a.out, now + d) && InTime(net, b.out, now + d)
    ensures PairOk(net, a, b, now + d)
  {
    TickKeepsSide(net, a, now, d);
    TickKeepsSide(net, b, now, d);
  }

  lemma ActKeepsInv(net: Network, s: State, step: Step)
    requires Tolerable(net) && Inv(net, s) && Enabled(net, s, step) && (step.LeftStep? || step.RightStep?)
    ensures Inv(net, Apply(net, s, step))
  {
    match step
    case LeftStep(p) => ActKeepsPair(net, s.left, s.right, s.now, p);
    case RightStep(p) => ActKeepsPair(net, s.right, s.left, s.now, p);
  }

  lemma PassKeepsInv(net: Network, s: State, step: Step)
    requires Tolerable(net) && Inv(net, s) && Enabled(net, s, step) && (step.ToLeft? || step.ToRight?)
    ensures Inv(net, Apply(net, s, step))
  {
    match step
    case ToLeft(lost) => PassKeepsPair(net, s.right, s.left, s.now, lost);
    case ToRight(lost) => PassKeepsPair(net, s.left, s.right, s.now, lost);
  }

  lemma StepKeepsInv(net: Network, s: State, step: Step)
    requires Tolerable(net) && Inv(net, s) && Enabled(net, s, step)
    ensures Inv(net, Apply(net, s, step))
  {
    if step.Tick? {
      TickKeepsPair(net, s.left, s.right, s.now, step.d);
    } else if step.LeftStep? || step.RightStep? {
      ActKeepsInv(net, s, step);
    } else {
      PassKeepsInv(net, s, step);
    }
  }

  // ---------------------------------------------------------------- runs

  predicate Feasible(net: Network, s: State, run: seq<Step>)
    decreases |run|
  {
    run == [] || (Enabled(net, s, run[0]) && Feasible(net, Apply(net, s, run[0]), run[1..]))
  }

  function After(net: Network, s: State, run: seq<Step>): State
    requires Feasible(net, s, run)
    decreases |run|
  {
    if run == [] then s else After(net, Apply(net, s, run[0]), run[1..])
  }

  lemma {:induction false} RunKeepsInv(net: Network, s: State, run: seq<Step>)
    requires Tolerable(net) && Inv(net, s) && Feasible(net, s, run)
    ensures Inv(net, After(net, s, run))
    decreases |run|
  {
    if run == [] {
    } else {
      StepKeepsInv(net, s, run[0]);
      RunKeepsInv(net, Apply(net, s, run[0]), run[1..]);
    }
  }

  predicate BothConnected(s: State) {
    Connected(s.left.peer.link, s.now) && Connected(s.right.peer.link, s.now)
  }

  lemma BeginningOk(net: Network, s: State)
    requires Begins(net, s)
    ensures Inv(net, s)
  {
  }

  lemma NewPairBegins(net: Network)
    ensures Begins(net, NewPair(net.origin))
  {
  }

  /** The time by which both peers are sure to be connected. */
  function UpBy(net: Network): nat {
    HeardBy(net) + (MAX_LOSSES + 1) * KEEP_ALIVE_INTERVAL + net.maxDelay
  }

  lemma ConnectedOnceMarked(net: Network, from: Side, to: Side, now: nat)
    requires Tolerable(net) && SideOk(net, from, now) && SideOk(net, to, now) && Heard(net, to, from.out)
    requires from.heard.Some? && from.heard.value <= HeardBy(net)
    requires from.out.delivered.Some? && UpBy(net) < now
    ensures Connected(to.peer.link, now)
  {
    HeardStaysFresh(net, from, to, now);
    DeliveredRecently(net, from, now);
  }

  /** The link comes up, after a start, a late start of one peer, a restart or an outage: in every run, whatever the
      peers send and the network loses within its limits, both peers are connected at every instant later than 15 s
      plus the slack plus two maximal delays after the network's origin. */
  lemma LinkComesUp(net: Network, start: State, run: seq<Step>)
    requires Tolerable(net) && Begins(net, start) && Feasible(net, start, run)
    requires net.origin + net.slack + 15000 + 2 * net.maxDelay < After(net, start, run).now
    ensures BothConnected(After(net, start, run))
  {
    BeginningOk(net, start);
    RunKeepsInv(net, start, run);
    var s := After(net, start, run);
    if s.right.out.delivered.None? { NothingDeliveredYet(net, s.right, s.now); }
    if s.left.out.delivered.None? { NothingDeliveredYet(net, s.left, s.now); }
    ConnectedOnceMarked(net, s.left, s.right, s.now);
    ConnectedOnceMarked(net, s.right, s.left, s.now);
  }

  /** A running peer sends within three seconds, so every pair of peers in good order may begin with that slack. */
  lemma AnyPairMayBegin(net: Network, s: State)
    requires net.slack == KEEP_ALIVE_INTERVAL && s.now == net.origin
    requires PeerOk(s.left.peer, s.now) && s.left.out == EMPTY_CHANNEL && s.left.heard.None?
    requires PeerOk(s.right.peer, s.now) && s.right.out == EMPTY_CHANNEL && s.right.heard.None?
    requires forall who :: EmissionOf(s.left.peer, who).Some? ==> EmissionOf(s.left.peer, who).value.Marked?
    requires forall who :: EmissionOf(s.right.peer, who).Some? ==> EmissionOf(s.right.peer, who).value.Marked?
    ensures Begins(net, s)
  {
  }

  /** Two peers created at the same time need no slack. */
  lemma NewPairComesUp(net: Network, run: seq<Step>)
    requires Tolerable(net) && net.slack == 0 && Feasible(net, NewPair(net.origin), run)
    requires net.origin + 15000 + 2 * net.maxDelay < After(net, NewPair(net.origin), run).now
    ensures BothConnected(After(net, NewPair(net.origin), run))
  {
    NewPairBegins(net);
    LinkComesUp(net, NewPair(net.origin), run);
  }

  // ---------------------------------------------------------------- once up, always up

  /** Everything in flight, and everything about to be sent, carries the marker. */
  ghost predicate MarkersOnly(side: Side) {
    && AllMarked(side.peer)
    && (forall i :: side.out.head <= i < |side.out.sent| ==> side.out.sent[i].marker)
  }

  ghost predicate Settled(s: State) {
    && BothConnected(s) && MarkersOnly(s.left) && MarkersOnly(s.right)
    && s.left.out.delivered.Some? && s.right.out.delivered.Some?
  }

  lemma ActKeepsMarkers(side: Side, now: nat, step: UdpLink.Step)
    requires MarkersOnly(side) && Fresh(side.peer.link, now) && CanAct(side, now, step)
    ensures MarkersOnly(Act(side, now, step))
    ensures Act(side, now, step).peer.link.lastIngress == side.peer.link.lastIngress
  {
    ActKeepsAllMarked(side.peer, now, step);
  }

  lemma ReceiveKeepsConnected(net: Network, from: Side, to: Side, now: nat)
    requires Tolerable(net) && SideOk(net, from, now) && CanPass(net, from, to, now, false)
    requires MarkersOnly(from) && MarkersOnly(to)
    ensures Connected(Receive(net, from, to, now).peer.link, now) && MarkersOnly(Receive(net, from, to, now))
  {
    DeliveredInWindow(net, from, to, now);
    assert forall who :: EmissionOf(Receive(net, from, to, now).peer, who) == EmissionOf(to.peer, who);
  }

  lemma StepKeepsSettled(net: Network, s: State, step: Step)
    requires Tolerable(net) && Inv(net, s) && Settled(s) && Enabled(net, s, step)
    ensures Settled(Apply(net, s, step))
  {
    StepKeepsInv(net, s, step);
    match step
    case LeftStep(p) => ActKeepsMarkers(s.left, s.now, p);
    case RightStep(p) => ActKeepsMarkers(s.right, s.now, p);
    case ToLeft(lost) => if !lost { ReceiveKeepsConnected(net, s.right, s.left, s.now); }
    case ToRight(lost) => if !lost { ReceiveKeepsConnected(net, s.left, s.right, s.now); }
    case Tick(d) =>
      var s' := Apply(net, s, step);
      HeardStaysFresh(net, s'.right, s'.left, s'.now);
      HeardStaysFresh(net, s'.left, s'.right, s'.now);
  }

  /** Once both peers are connected and everything in flight carries the marker, they stay connected, in every
      continuation of every run. */
  lemma {:induction false} StaysConnected(net: Network, s: State, run: seq<Step>)
    requires Tolerable(net) && Inv(net, s) && Settled(s) && Feasible(net, s, run)
    ensures Settled(After(net, s, run)) && BothConnected(After(net, s, run))
    decreases |run|
  {
    if run == [] {
    } else {
      StepKeepsSettled(net, s, run[0]);
      StepKeepsInv(net, s, run[0]);
      StaysConnected(net, Apply(net, s, run[0]), run[1..]);
    }
  }

  lemma OnceConnectedAlwaysConnected(net: Network, start: State, before: seq<Step>, after: seq<Step>)
    requires Tolerable(net) && Begins(net, start) && Feasible(net, start, before)
    requires Settled(After(net, start, before)) && Feasible(net, After(net, start, before), after)
    ensures BothConnected(After(net, After(net, start, before), after))
  {
    BeginningOk(net, start);
    RunKeepsInv(net, start, before);
    StaysConnected(net, After(net, start, before), after);
  }
}
