/** Time goes on for two UDP peers: whatever they have to do at one instant ends, acknowledgements of acknowledgements
    included, so every state of every run has a later one. */
module UdpProgress {
  import opened Wire
  import opened UdpPair
  import UdpLink

  // ---------------------------------------------------------------- two peers

  /** The peers that have not heard from the other one lately. */
  function Deaf(s: State): nat {
    (if UdpLink.Fresh(s.left.peer.link, s.now) then 0 else 1) + if UdpLink.Fresh(s.right.peer.link, s.now) then 0 else 1
  }

  function Undelivered(c: Channel): nat {
    if c.head <= |c.sent| then |c.sent| - c.head else 0
  }

  function SideLoad(side: Side, now: nat): nat {
    UdpLink.PeerLoad(side.peer, now) + Undelivered(side.out)
  }

  function PairLoad(s: State): nat {
    SideLoad(s.left, s.now) + SideLoad(s.right, s.now)
  }

  /** A step of the peers' tasks, or a delivery. */
  predicate Moves(step: Step) {
    match step
    case LeftStep(p) => UdpLink.Own(p)
    case RightStep(p) => UdpLink.Own(p)
    case ToLeft(lost) => !lost
    case ToRight(lost) => !lost
    case Tick(_) => false
  }

  lemma ActLowersSide(net: Network, side: Side, now: nat, step: UdpLink.Step)
    requires SideOk(net, side, now) && CanAct(side, now, step) && UdpLink.Own(step)
    ensures SideLoad(Act(side, now, step), now) < SideLoad(side, now)
    ensures Act(side, now, step).peer.link.lastIngress == side.peer.link.lastIngress
  {
    UdpLink.OwnStepLowersLoad(side.peer, now, step);
  }

  /** A datagram that comes in gives its receiver something to do only if it is the first after a silence. */
  lemma DeliveryLowers(net: Network, from: Side, to: Side, now: nat)
    requires Tolerable(net) && SideOk(net, from, now) && CanPass(net, from, to, now, false)
    ensures var to' := Receive(net, from, to, now);
      && Undelivered(Consume(from.out, false)) < Undelivered(from.out)
      && to'.out == to.out && UdpLink.Fresh(to'.peer.link, now)
      && (UdpLink.Fresh(to.peer.link, now) ==> UdpLink.PeerLoad(to'.peer, now) == UdpLink.PeerLoad(to.peer, now))
  {
    DeliveredInWindow(net, from, to, now);
  }

  /** Every such step lowers, lexicographically, the number of peers that have not heard the other one, and what is left
      to do and to deliver. */
  lemma MoveLowers(net: Network, s: State, step: Step)
    requires Tolerable(net) && Inv(net, s) && Enabled(net, s, step) && Moves(step)
    ensures var s' := Apply(net, s, step);
      s'.now == s.now && (Deaf(s') < Deaf(s) || (Deaf(s') == Deaf(s) && PairLoad(s') < PairLoad(s)))
  {
    match step
    case LeftStep(p) => ActLowersSide(net, s.left, s.now, p);
    case RightStep(p) => ActLowersSide(net, s.right, s.now, p);
    case ToLeft(_) => DeliveryLowers(net, s.right, s.left, s.now);
    case ToRight(_) => DeliveryLowers(net, s.left, s.right, s.now);
  }

  lemma OverdueCanPass(net: Network, from: Side, to: Side, now: nat)
    requires Tolerable(net) && SideOk(net, from, now) && UdpLink.Quiet(to.peer, now) && !InTime(net, from.out, now + 1)
    ensures CanPass(net, from, to, now, false)
  {
  }

  lemma TickOrMove(net: Network, s: State) returns (step: Step)
    requires Tolerable(net) && Inv(net, s) && !Enabled(net, s, Tick(1))
    ensures Moves(step) && Enabled(net, s, step)
  {
    if !UdpLink.Quiet(s.left.peer, s.now) {
      var p := UdpLink.QuietOrBusy(s.left.peer, s.now);
      step := LeftStep(p);
    } else if !UdpLink.Quiet(s.right.peer, s.now) {
      var p := UdpLink.QuietOrBusy(s.right.peer, s.now);
      step := RightStep(p);
    } else if !InTime(net, s.left.out, s.now + 1) {
      OverdueCanPass(net, s.left, s.right, s.now);
      step := ToRight(false);
    } else {
      OverdueCanPass(net, s.right, s.left, s.now);
      step := ToLeft(false);
    }
  }

  /** The run ends one millisecond later. */
  ghost predicate Ticks(net: Network, s: State, run: seq<Step>) {
    Feasible(net, s, run) && After(net, s, run).now == s.now + 1
  }

  lemma TicksFrom(net: Network, s: State, deaf: nat, load: nat) returns (run: seq<Step>)
    requires Tolerable(net) && Inv(net, s) && deaf == Deaf(s) && load == PairLoad(s)
    ensures Ticks(net, s, run)
    decreases deaf, load
  {
    if Enabled(net, s, Tick(1)) {
      run := [Tick(1)];
      assert run[1..] == [];
    } else {
      var step := TickOrMove(net, s);
      MoveLowers(net, s, step);
      StepKeepsInv(net, s, step);
      var s' := Apply(net, s, step);
      var rest := TicksFrom(net, s', Deaf(s'), PairLoad(s'));
      run := [step] + rest;
      assert run[1..] == rest;
    }
  }

  lemma {:induction false} FeasibleAppend(net: Network, s: State, a: seq<Step>, b: seq<Step>)
    requires Feasible(net, s, a) && Feasible(net, After(net, s, a), b)
    ensures Feasible(net, s, a + b) && After(net, s, a + b) == After(net, After(net, s, a), b)
    decreases |a|
  {
    if a == [] {
      assert a + b == b;
    } else {
      assert (a + b)[1..] == a[1..] + b;
      FeasibleAppend(net, Apply(net, s, a[0]), a[1..], b);
    }
  }

  lemma TimePasses(net: Network, s: State, d: nat) returns (run: seq<Step>)
    requires Tolerable(net) && Inv(net, s)
    ensures Feasible(net, s, run) && After(net, s, run).now == s.now + d
  {
    if d == 0 {
      run := [];
    } else {
      var before := TimePasses(net, s, d - 1);
      RunKeepsInv(net, s, before);
      var s' := After(net, s, before);
      var last := TicksFrom(net, s', Deaf(s'), PairLoad(s'));
      FeasibleAppend(net, s, before, last);
      run := before + last;
    }
  }

  /** From every state of every run, any amount of time can pass: the peers never keep each other busy for ever. */
  lemma TimeGoesOn(net: Network, start: State, run: seq<Step>, d: nat) returns (more: seq<Step>)
    requires Tolerable(net) && Begins(net, start) && Feasible(net, start, run)
    ensures Feasible(net, After(net, start, run), more)
    ensures After(net, After(net, start, run), more).now == After(net, start, run).now + d
  {
    BeginningOk(net, start);
    RunKeepsInv(net, start, run);
    more := TimePasses(net, After(net, start, run), d);
  }
}
