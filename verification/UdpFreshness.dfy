/** What `connected` means on a network that may lose, reorder, delay and duplicate datagrams at will, but not forge
    them: the secured transport's guarantee, which holds if the network does not return a node its own datagrams, and
    only then. Choosing the marker and stamping the datagram is one step. */
module UdpFreshness {
  import opened Wire
  import opened UdpLink
  import opened UdpPair

  /** An accepted datagram: when it came in, and which of the other side's datagrams it was. */
  datatype Receipt = Receipt(time: nat, index: nat)

  datatype Node = Node(link: Link, sent: seq<Datagram>, receipts: seq<Receipt>)

  const NEW_NODE := Node(Link(None, None, false), [], [])

  /** Times are UNIX times in milliseconds, the same for both nodes. */
  datatype World = World(left: Node, right: Node, now: nat)

  datatype Step =
    | SendLeft
    | SendRight
    | DeliverToLeft(index: nat)
    | DeliverToRight(index: nat)
    | ReflectLeft(index: nat)
    | ReflectRight(index: nat)
    | Pass(d: nat)

  function Send(node: Node, now: nat): Node {
    node.(sent := node.sent + [Datagram(now, Fresh(node.link, now))])
  }

  /** Any datagram ever sent may arrive, any number of times; the securer drops those outside its window. */
  function Deliver(from: Node, to: Node, index: nat, now: nat): Node
    requires index < |from.sent|
  {
    if InWindow(from.sent[index].time, now) then
      to.(link := OnIngress(to.link, from.sent[index].marker, now), receipts := to.receipts + [Receipt(now, index)])
    else to
  }

  /** A node's own datagram comes back to it under the other's address: the securer, which knows one secret, accepts
      it. */
  function Reflect(node: Node, index: nat, now: nat): Node
    requires index < |node.sent|
  {
    if InWindow(node.sent[index].time, now)
    then node.(link := OnIngress(node.link, node.sent[index].marker, now))
    else node
  }

  predicate Enabled(s: World, step: Step) {
    match step
    case DeliverToLeft(index) => index < |s.right.sent|
    case DeliverToRight(index) => index < |s.left.sent|
    case ReflectLeft(index) => index < |s.left.sent|
    case ReflectRight(index) => index < |s.right.sent|
    case _ => true
  }

  function Apply(s: World, step: Step): World
    requires Enabled(s, step)
  {
    match step
    case SendLeft => s.(left := Send(s.left, s.now))
    case SendRight => s.(right := Send(s.right, s.now))
    case DeliverToLeft(index) => s.(left := Deliver(s.right, s.left, index, s.now))
    case DeliverToRight(index) => s.(right := Deliver(s.left, s.right, index, s.now))
    case ReflectLeft(index) => s.(left := Reflect(s.left, index, s.now))
    case ReflectRight(index) => s.(right := Reflect(s.right, index, s.now))
    case Pass(d) => s.(now := s.now + d)
  }

  predicate Feasible(s: World, run: seq<Step>)
    decreases |run|
  {
    run == [] || (Enabled(s, run[0]) && Feasible(Apply(s, run[0]), run[1..]))
  }

  function After(s: World, run: seq<Step>): World
    requires Feasible(s, run)
    decreases |run|
  {
    if run == [] then s else After(Apply(s, run[0]), run[1..])
  }

  lemma RunsFrom(s: World, step: Step, rest: seq<Step>)
    requires Enabled(s, step) && Feasible(Apply(s, step), rest)
    ensures Feasible(s, [step] + rest) && After(s, [step] + rest) == After(Apply(s, step), rest)
  {
    assert ([step] + rest)[1..] == rest;
  }

  ghost predicate NoReflection(run: seq<Step>) {
    forall i :: 0 <= i < |run| ==> !run[i].ReflectLeft? && !run[i].ReflectRight?
  }

  function Begin(start: nat): World {
    World(NEW_NODE, NEW_NODE, start)
  }

  /** The node accepted a datagram less than `age` before `t`. */
  ghost predicate ReceivedWithin(node: Node, age: nat, t: nat) {
    exists k :: 0 <= k < |node.receipts| && node.receipts[k].time <= t < node.receipts[k].time + age
  }

  const WINDOW: nat := 21000

  ghost predicate NodeOk(node: Node, other: Node, now: nat) {
    && (forall k :: 0 <= k < |node.receipts| ==> node.receipts[k].index < |other.sent| && node.receipts[k].time <= now)
    && (forall i ::
          0 <= i < |node.sent| && node.sent[i].marker ==> ReceivedWithin(node, KEEP_ALIVE_TIMEOUT, node.sent[i].time))
    && (node.link.lastIngress.Some? ==>
          && node.receipts != []
          && var last := node.receipts[|node.receipts| - 1];
          && last.time == node.link.lastIngress.value.time
          && other.sent[last.index].marker == node.link.lastIngress.value.egressWorks
          && last.time < other.sent[last.index].time + WINDOW)
  }

  ghost predicate Inv(s: World) {
    NodeOk(s.left, s.right, s.now) && NodeOk(s.right, s.left, s.now)
  }

  /** Whole seconds hide less than one second. */
  lemma WindowBound(sent: nat, now: nat)
    requires InWindow(sent, now)
    ensures now < sent + WINDOW
  {
  }

  lemma ReceivedWithinGrows(node: Node, receipt: Receipt, age: nat, t: nat)
    requires ReceivedWithin(node, age, t)
    ensures ReceivedWithin(node.(receipts := node.receipts + [receipt]), age, t)
  {
    var k :| 0 <= k < |node.receipts| && node.receipts[k].time <= t < node.receipts[k].time + age;
    assert (node.receipts + [receipt])[k] == node.receipts[k];
  }

  lemma SendKeeps(node: Node, other: Node, now: nat)
    requires NodeOk(node, other, now) && NodeOk(other, node, now)
    ensures NodeOk(Send(node, now), other, now) && NodeOk(other, Send(node, now), now)
  {
    var node' := Send(node, now);
    forall i | 0 <= i < |node'.sent| && node'.sent[i].marker
      ensures ReceivedWithin(node', KEEP_ALIVE_TIMEOUT, node'.sent[i].time)
    {
      if i < |node.sent| {
        assert ReceivedWithin(node, KEEP_ALIVE_TIMEOUT, node.sent[i].time);
      } else {
        assert node'.receipts[|node.receipts| - 1].time <= now;
      }
    }
  }

  lemma DeliverKeeps(from: Node, to: Node, index: nat, now: nat)
    requires NodeOk(from, to, now) && NodeOk(to, from, now) && index < |from.sent|
    ensures NodeOk(Deliver(from, to, index, now), from, now) && NodeOk(from, Deliver(from, to, index, now), now)
  {
    if InWindow(from.sent[index].time, now) {
      WindowBound(from.sent[index].time, now);
      var to' := Deliver(from, to, index, now);
      forall i | 0 <= i < |to.sent| && to.sent[i].marker
        ensures ReceivedWithin(to', KEEP_ALIVE_TIMEOUT, to.sent[i].time)
      {
        ReceivedWithinGrows(to, Receipt(now, index), KEEP_ALIVE_TIMEOUT, to.sent[i].time);
      }
    }
  }

  lemma StepKeepsInv(s: World, step: Step)
    requires Inv(s) && Enabled(s, step) && !step.ReflectLeft? && !step.ReflectRight?
    ensures Inv(Apply(s, step))
  {
    match step
    case SendLeft => SendKeeps(s.left, s.right, s.now);
    case SendRight => SendKeeps(s.right, s.left, s.now);
    case DeliverToLeft(index) => DeliverKeeps(s.right, s.left, index, s.now);
    case DeliverToRight(index) => DeliverKeeps(s.left, s.right, index, s.now);
    case Pass(d) =>
  }

  lemma {:induction false} RunKeepsInv(s: World, run: seq<Step>)
    requires Inv(s) && Feasible(s, run) && NoReflection(run)
    ensures Inv(After(s, run)) && s.now <= After(s, run).now
    decreases |run|
  {
    if run == [] {
    } else {
      assert !run[0].ReflectLeft? && !run[0].ReflectRight?;
      StepKeepsInv(s, run[0]);
      RunKeepsInv(Apply(s, run[0]), run[1..]);
    }
  }

  /** Less than ten seconds of silence here, an accepted age of less than twenty-one, less than ten at the other side:
      in whole milliseconds, three short of 41 seconds. */
  const GUARANTEE: nat := 40997

  /** One of the node's datagrams was accepted by the other node within the guaranteed time. */
  ghost predicate HeardBy(node: Node, other: Node, now: nat) {
    exists k :: 0 <= k < |other.receipts| && other.receipts[k].index < |node.sent|
                && now <= other.receipts[k].time + GUARANTEE
  }

  /** A node that considers itself connected has been heard. */
  ghost predicate Assured(s: World) {
    && (Connected(s.left.link, s.now) ==> HeardBy(s.left, s.right, s.now))
    && (Connected(s.right.link, s.now) ==> HeardBy(s.right, s.left, s.now))
  }

  lemma ConnectedNode(node: Node, other: Node, now: nat)
    requires NodeOk(node, other, now) && NodeOk(other, node, now)
    requires Connected(node.link, now)
    ensures HeardBy(node, other, now)
  {
    var last := node.receipts[|node.receipts| - 1];
    var t := other.sent[last.index].time;
    assert ReceivedWithin(other, KEEP_ALIVE_TIMEOUT, t);
    var k :| 0 <= k < |other.receipts| && other.receipts[k].time <= t < other.receipts[k].time + KEEP_ALIVE_TIMEOUT;
    assert other.receipts[k].index < |node.sent|;
  }

  /** In every run without reflection: a node that considers itself connected has had one of its own datagrams
      accepted by the other one less than 41 seconds ago. */
  lemma ConnectedMeansHeard(start: nat, run: seq<Step>)
    requires Feasible(Begin(start), run) && NoReflection(run)
    ensures Assured(After(Begin(start), run))
  {
    RunKeepsInv(Begin(start), run);
    var s := After(Begin(start), run);
    if Connected(s.left.link, s.now) { ConnectedNode(s.left, s.right, s.now); }
    if Connected(s.right.link, s.now) { ConnectedNode(s.right, s.left, s.now); }
  }

  /** Two datagrams that come straight back connect a node whose peer is silent: the first tells it that something
      comes in, the second, marked for that, that its egress works. */
  lemma ReflectionConnects(start: nat)
    ensures var run := [SendLeft, ReflectLeft(0), SendLeft, ReflectLeft(1)];
      && Feasible(Begin(start), run)
      && var s := After(Begin(start), run); Connected(s.left.link, s.now) && s.right == NEW_NODE && !Assured(s)
  {
    var s0 := Begin(start);
    var s1 := Apply(s0, SendLeft);
    var s2 := Apply(s1, ReflectLeft(0));
    var s3 := Apply(s2, SendLeft);
    assert s1.left.sent == [Datagram(start, false)] && s3.left.sent == [Datagram(start, false), Datagram(start, true)];
    var s4 := Apply(s3, ReflectLeft(1));
    RunsFrom(s3, ReflectLeft(1), []);
    RunsFrom(s2, SendLeft, [ReflectLeft(1)] + []);
    RunsFrom(s1, ReflectLeft(0), [SendLeft] + ([ReflectLeft(1)] + []));
    RunsFrom(s0, SendLeft, [ReflectLeft(0)] + ([SendLeft] + ([ReflectLeft(1)] + [])));
    assert [SendLeft, ReflectLeft(0), SendLeft, ReflectLeft(1)] ==
           [SendLeft] + ([ReflectLeft(0)] + ([SendLeft] + ([ReflectLeft(1)] + [])));
  }

  ghost predicate Possible(reflecting: bool, start: nat, run: seq<Step>) {
    Feasible(Begin(start), run) && (reflecting || NoReflection(run))
  }

  /** Every run on the network, reflecting or not, keeps the promise. */
  ghost predicate Guaranteed(reflecting: bool) {
    forall start: nat, run: seq<Step> | Possible(reflecting, start, run) :: Assured(After(Begin(start), run))
  }

  /** The condition is exact. */
  lemma GuaranteedUnlessReflecting(reflecting: bool)
    ensures Guaranteed(reflecting) <==> !reflecting
  {
    if reflecting {
      ReflectionConnects(0);
      assert Possible(true, 0, [SendLeft, ReflectLeft(0), SendLeft, ReflectLeft(1)]);
    } else {
      forall start: nat, run: seq<Step> | Possible(false, start, run)
        ensures Assured(After(Begin(start), run))
      {
        ConnectedMeansHeard(start, run);
      }
    }
  }

  /** A run that answers one datagram as late as can be. */
  const SLOW_RUN: seq<Step> := [SendLeft] + SLOW_TAIL
  const SLOW_TAIL: seq<Step> := [DeliverToRight(0)] + ([Pass(9999)] + SLOW_ANSWER)
  const SLOW_ANSWER: seq<Step> := [SendRight] + ([Pass(20999)] + ([DeliverToLeft(0)] + ([Pass(9999)] + [])))

  lemma SlowAnswer(s: World)
    requires s == World(Node(Link(None, None, false), [Datagram(1, false)], []),
                        Node(Link(Some(Ingress(1, false)), None, true), [], [Receipt(1, 0)]), 10000)
    ensures Feasible(s, SLOW_ANSWER)
    ensures After(s, SLOW_ANSWER).left.link == Link(Some(Ingress(30999, true)), None, true)
    ensures After(s, SLOW_ANSWER).right.receipts == [Receipt(1, 0)] && After(s, SLOW_ANSWER).now == 40998
  {
    var s4 := Apply(s, SendRight);
    assert s4.right.sent == [Datagram(10000, true)];
    var s5 := Apply(s4, Pass(20999));
    var s6 := Apply(s5, DeliverToLeft(0));
    assert InWindow(10000, 30999);
    var s7 := Apply(s6, Pass(9999));
    RunsFrom(s6, Pass(9999), []);
    RunsFrom(s5, DeliverToLeft(0), [Pass(9999)] + []);
    RunsFrom(s4, Pass(20999), [DeliverToLeft(0)] + ([Pass(9999)] + []));
    RunsFrom(s, SendRight, [Pass(20999)] + ([DeliverToLeft(0)] + ([Pass(9999)] + [])));
  }

  /** The bound is attained: a connected node whose datagram was last accepted exactly that long ago. */
  lemma GuaranteeIsTight()
    ensures Feasible(Begin(1), SLOW_RUN)
    ensures var s := After(Begin(1), SLOW_RUN);
      Connected(s.left.link, s.now) && s.right.receipts == [Receipt(1, 0)] && s.now == 1 + GUARANTEE
  {
    var s0 := Begin(1);
    var s1 := Apply(s0, SendLeft);
    assert s1.left.sent == [Datagram(1, false)];
    var s2 := Apply(s1, DeliverToRight(0));
    assert s2.right.receipts == [Receipt(1, 0)];
    var s3 := Apply(s2, Pass(9999));
    SlowAnswer(s3);
    RunsFrom(s2, Pass(9999), SLOW_ANSWER);
    RunsFrom(s1, DeliverToRight(0), [Pass(9999)] + SLOW_ANSWER);
    RunsFrom(s0, SendLeft, SLOW_TAIL);
  }
}
