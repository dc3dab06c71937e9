/** When a UDP peer sends of its own accord: keep-alives only after three seconds of silence of its own,
    acknowledgements only for the first datagram after ten seconds of silence of the other side's. */
module UdpKeepAlive {
  import opened Wire
  import opened UdpLink

  /** Whenever the pinger is awake: it sends exactly if an acknowledgement is wanted, nothing was ever sent, or the last
      datagram went out at least three seconds ago; otherwise it sleeps until three seconds after that. */
  lemma KeepAlivesAreNeeded(p: Peer, now: nat)
    requires p.pinger.Awake?
    ensures var q := Apply(p, now, Check);
      && (q.pinger.Pinging? <==>
            p.link.needsAck || p.link.lastEgress.None? || p.link.lastEgress.value + 3000 <= now)
      && (!q.pinger.Pinging? ==> q == p.(pinger := Waiting(p.link.lastEgress.value + 3000)))
      && (q.pinger.Pinging? ==> !q.link.needsAck && q.link.(needsAck := p.link.needsAck) == p.link)
  {
  }

  // ---------------------------------------------------------------- what a run sends

  /** A datagram that went out: `ping` if it is the pinger's, `ack` if that was woken up to acknowledge. */
  datatype Sent = Sent(time: nat, ping: bool, ack: bool)

  /** What an observer notes of a run: the datagrams sent; when the last one came in; how many came in after at least
      ten seconds without any, or as the first; and whether the pinger last decided to acknowledge. */
  datatype Log = Log(sent: seq<Sent>, heardAt: Option<nat>, silences: nat, acking: bool)

  const NOTHING := Log([], None, 0, false)

  function Note(log: Log, p: Peer, now: nat, step: Step): Log {
    match step
    case Emit(who) => log.(sent := log.sent + [Sent(now, who.None?, who.None? && log.acking)])
    case Check => log.(acking := p.link.needsAck)
    case Receive(_) =>
      var silent := log.heardAt.None? || log.heardAt.value + 10000 <= now;
      log.(heardAt := Some(now), silences := log.silences + if silent then 1 else 0)
    case _ => log
  }

  function Noted(log: Log, p: Peer, now: nat, run: seq<Event>): Log
    requires Feasible(p, now, run)
    decreases |run|
  {
    if run == [] then log
    else
      match run[0]
      case Now(step) => Noted(Note(log, p, now, step), Apply(p, now, step), now, run[1..])
      case Later(d) => Noted(log, p, now + d, run[1..])
  }

  // ---------------------------------------------------------------- the invariant

  /** On its way between the socket and the stored egress time. */
  predicate InFlight(p: Peer, ping: bool) {
    if ping then p.pinger.Pinging? && !p.pinger.emission.Marked?
    else exists t :: t in p.senders && !p.senders[t].Marked?
  }

  /** A datagram that went out is stored as the last egress, or is about to be. */
  predicate Stored(p: Peer, now: nat, e: Sent) {
    e.time <= now
    && ((p.link.lastEgress.Some? && e.time <= p.link.lastEgress.value) || (e.time == now && InFlight(p, e.ping)))
  }

  ghost predicate AllStored(log: Log, p: Peer, now: nat) {
    forall i :: 0 <= i < |log.sent| ==> Stored(p, now, log.sent[i])
  }

  /** Three seconds after everything before, or at the same instant as a sender's own datagram. */
  predicate Apart(e: Sent, time: nat) {
    e.time + 3000 <= time || (e.time == time && !e.ping)
  }

  /** A keep-alive that does not acknowledge is three seconds away from whatever was sent before. */
  ghost predicate Spaced(sent: seq<Sent>) {
    forall i, j :: 0 <= i < j < |sent| && sent[j].ping && !sent[j].ack ==> Apart(sent[i], sent[j].time)
  }

  /** The same for the one the pinger is about to send. */
  ghost predicate Due(log: Log, p: Peer, now: nat) {
    p.pinger.Pinging? && p.pinger.emission.Marked? && !log.acking ==>
      forall i :: 0 <= i < |log.sent| ==> Apart(log.sent[i], now)
  }

  function Acks(sent: seq<Sent>): nat {
    if sent == [] then 0 else Acks(sent[..|sent| - 1]) + if sent[|sent| - 1].ack then 1 else 0
  }

  /** Acknowledgements that have been sent, are about to be, or are wanted. */
  function AcksDue(log: Log, p: Peer): nat {
    Acks(log.sent) + (if p.link.needsAck then 1 else 0)
    + if p.pinger.Pinging? && p.pinger.emission.Marked? && log.acking then 1 else 0
  }

  ghost predicate LogOk(log: Log, p: Peer, now: nat) {
    && PeerOk(p, now)
    && AllStored(log, p, now) && Spaced(log.sent) && Due(log, p, now)
    && log.heardAt == (if p.link.lastIngress.Some? then Some(p.link.lastIngress.value.time) else None)
    && AcksDue(log, p) <= log.silences
  }

  lemma InFlightStays(p: Peer, now: nat, step: Step, ping: bool)
    requires Enabled(p, now, step) && !step.Store? && InFlight(p, ping)
    ensures InFlight(Apply(p, now, step), ping)
  {
    if !ping {
      var t :| t in p.senders && !p.senders[t].Marked?;
      assert t in Apply(p, now, step).senders && !Apply(p, now, step).senders[t].Marked?;
    }
  }

  /** What is stored stays stored, and storing an egress time takes care of everything sent so far. */
  lemma StepKeepsStored(log: Log, p: Peer, now: nat, step: Step)
    requires AllStored(log, p, now) && Enabled(p, now, step)
    requires step.Store? ==> StampedNow(EmissionOf(p, step.who).value, now)
    ensures AllStored(log, Apply(p, now, step), now)
  {
    forall i | 0 <= i < |log.sent|
      ensures Stored(Apply(p, now, step), now, log.sent[i])
    {
      assert Stored(p, now, log.sent[i]);
      if !step.Store? && InFlight(p, log.sent[i].ping) {
        InFlightStays(p, now, step, log.sent[i].ping);
      }
    }
  }

  lemma EmitKeepsStored(log: Log, p: Peer, now: nat, who: Option<nat>)
    requires AllStored(log, p, now) && Enabled(p, now, Emit(who))
    ensures AllStored(Note(log, p, now, Emit(who)), Apply(p, now, Emit(who)), now)
  {
    var q := Apply(p, now, Emit(who));
    StepKeepsStored(log, p, now, Emit(who));
    assert who.Some? ==> who.value in q.senders && !q.senders[who.value].Marked?;
  }

  lemma EmitKeepsSpaced(log: Log, p: Peer, now: nat, who: Option<nat>)
    requires Spaced(log.sent) && Due(log, p, now) && Enabled(p, now, Emit(who))
    ensures Spaced(Note(log, p, now, Emit(who)).sent)
    ensures Due(Note(log, p, now, Emit(who)), Apply(p, now, Emit(who)), now)
  {
  }

  lemma EmitKeepsLog(log: Log, p: Peer, now: nat, who: Option<nat>)
    requires LogOk(log, p, now) && Enabled(p, now, Emit(who))
    ensures LogOk(Note(log, p, now, Emit(who)), Apply(p, now, Emit(who)), now)
  {
    StepKeepsPeer(p, now, Emit(who));
    EmitKeepsStored(log, p, now, who);
    EmitKeepsSpaced(log, p, now, who);
    assert Note(log, p, now, Emit(who)).sent[..|log.sent|] == log.sent;
  }

  lemma CheckKeepsDue(log: Log, p: Peer, now: nat)
    requires AllStored(log, p, now) && Enabled(p, now, Check)
    ensures Due(Note(log, p, now, Check), Apply(p, now, Check), now)
  {
    forall i | 0 <= i < |log.sent| && !p.link.needsAck && Apply(p, now, Check).pinger.Pinging?
      ensures Apart(log.sent[i], now)
    {
      assert Stored(p, now, log.sent[i]);
    }
  }

  lemma StepKeepsLog(log: Log, p: Peer, now: nat, step: Step)
    requires LogOk(log, p, now) && Enabled(p, now, step)
    ensures LogOk(Note(log, p, now, step), Apply(p, now, step), now)
  {
    if step.Emit? {
      EmitKeepsLog(log, p, now, step.who);
    } else {
      StepKeepsPeer(p, now, step);
      StepKeepsStored(log, p, now, step);
      if step.Check? {
        CheckKeepsDue(log, p, now);
      }
    }
  }

  lemma TickKeepsLog(log: Log, p: Peer, now: nat, d: nat)
    requires LogOk(log, p, now) && CanTick(p, now, d)
    ensures LogOk(log, p, now + d)
  {
    TickKeepsPeer(p, now, d);
    forall i | 0 <= i < |log.sent|
      ensures Stored(p, now + d, log.sent[i])
    {
      assert Stored(p, now, log.sent[i]);
    }
  }

  lemma {:induction false} RunKeepsLog(log: Log, p: Peer, now: nat, run: seq<Event>)
    requires LogOk(log, p, now) && Feasible(p, now, run)
    ensures LogOk(Noted(log, p, now, run), After(p, now, run).0, After(p, now, run).1)
    decreases |run|
  {
    if run == [] {
    } else {
      match run[0]
      case Now(step) =>
        StepKeepsLog(log, p, now, step);
        RunKeepsLog(Note(log, p, now, step), Apply(p, now, step), now, run[1..]);
      case Later(d) =>
        TickKeepsLog(log, p, now, d);
        RunKeepsLog(log, p, now + d, run[1..]);
    }
  }

  /** Over every run: a keep-alive that does not acknowledge goes out at least three seconds after every datagram
      before it, but for a sender's at the very same instant; and there are no more acknowledgements than datagrams
      that came in first or after ten seconds of silence. */
  lemma NothingSuperfluous(start: nat, run: seq<Event>)
    requires Feasible(NewPeer(start), start, run)
    ensures var log := Noted(NOTHING, NewPeer(start), start, run);
      && (forall i, j :: 0 <= i < j < |log.sent| && log.sent[j].ping && !log.sent[j].ack ==>
            || log.sent[i].time + 3000 <= log.sent[j].time
            || (log.sent[i].time == log.sent[j].time && !log.sent[i].ping))
      && Acks(log.sent) <= log.silences
  {
    RunKeepsLog(NOTHING, NewPeer(start), start, run);
    var log := Noted(NOTHING, NewPeer(start), start, run);
    forall i, j | 0 <= i < j < |log.sent| && log.sent[j].ping && !log.sent[j].ack
      ensures log.sent[i].time + 3000 <= log.sent[j].time
              || (log.sent[i].time == log.sent[j].time && !log.sent[i].ping)
    {
      assert Apart(log.sent[i], log.sent[j].time);
    }
  }
}
