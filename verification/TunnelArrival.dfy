/** Where every packet is when the tunnel has come to rest: on a connection whose readers' sockets have not failed all
    packets towards the server have arrived, and all towards the client too unless its task was killed. */
module TunnelArrival {
  import opened Wire
  import opened PacketStream
  import opened Delivery
  import opened Sends
  import opened Endpoints
  import opened Tunnel
  import opened TunnelSafety
  import opened TunnelLoop
  import opened TunnelRest
  import opened TunnelLossless
  import W = Writer

  // ---------------------------------------------------------------- writers at rest

  /** What is left of a writer without tasks: its handles, with nothing half done that a task would finish. */
  lemma IdleWire(w: W.State, h: nat)
    requires W.Inv(w) && w.tasks == map[] && h < |w.handles|
    ensures OnWire(w.handles[h]) == w.handles[h].accepted
  {
    assert W.HandleOk(w.handles[h]) && W.LockOk(w, h);
  }

  // ---------------------------------------------------------------- readers at rest

  /** With a packet left on the wire a reader can go on. */
  lemma LeftCanBeRead(x: W.Handle, pipe: Pipe, accepting: bool)
    requires StreamOk(x) && PipeOk(pipe, x, accepting) && pipe.end.Running?
    requires |pipe.tun| < |OnWire(x)|
    ensures CanRead(pipe, x.bytes, |x.bytes|)
  {
    FromPos(x, pipe, accepting);
    var left := OnWire(x)[|pipe.tun|..];
    ConcatAssoc(left[0], Flatten(left[1..]), Rest(x));
    NextPacket(left[0], Flatten(left[1..]) + Rest(x), Fault);
    assert x.bytes[pipe.pos..|x.bytes|] == x.bytes[pipe.pos..];
  }

  /** With none left, the reader of a closed socket can finish. */
  lemma EndCanBeRead(x: W.Handle, pipe: Pipe, accepting: bool)
    requires StreamOk(x) && PipeOk(pipe, x, accepting) && pipe.end.Running?
    requires x.closed && |pipe.tun| == |OnWire(x)|
    ensures CanFinish(pipe, x)
  {
    FromPos(x, pipe, accepting);
    assert x.bytes[pipe.pos..] == Rest(x);
    TailHasNoPacket(x.tail);
  }

  // ---------------------------------------------------------------- the system at rest

  lemma ClientWriterRests(s: State)
    requires AtRest(s)
    ensures WriterAtRest(s.client)
  {
    forall step | IsOwn(step)
      ensures !W.Enabled(s.client, step)
    {
      assert !Enabled(s, ClientAct(step.t, step.action));
    }
  }

  lemma ServerWriterRests(s: State, c: nat)
    requires AtRest(s) && c < |s.conns|
    ensures WriterAtRest(s.conns[c].server)
  {
    forall step | IsOwn(step)
      ensures !W.Enabled(s.conns[c].server, step)
    {
      assert !Enabled(s, ServerAct(c, step.t, step.action));
    }
  }

  lemma ServerReaderRests(s: State, c: nat)
    requires AtRest(s) && c < |s.conns|
    ensures var x := s.client.handles[c];
      && !CanRead(s.conns[c].up, x.bytes, |x.bytes|)
      && (s.nextTask !in s.conns[c].server.tasks ==> !CanFinish(s.conns[c].up, x))
  {
    var goodbye := Goodbye(seq(200, _ => 0));
    assert !Enabled(s, ServerRead(c, |s.client.handles[c].bytes|)) && !Enabled(s, ServerEof(c, goodbye));
  }

  lemma ClientReaderRests(s: State, c: nat)
    requires AtRest(s) && c < |s.conns| && s.conns[c].task.Reading?
    ensures var y := s.conns[c].server.handles[0];
      !CanRead(s.conns[c].down, y.bytes, |y.bytes|) && !CanFinish(s.conns[c].down, y)
  {
    assert !Enabled(s, ClientRead(c, |s.conns[c].server.handles[0].bytes|)) && !Enabled(s, ClientEof(c));
  }

  lemma ClientTaskRests(s: State, c: nat)
    requires AtRest(s) && c < |s.conns| && TasksOk(s) && s.client.tasks == map[]
    ensures !s.conns[c].task.Unspawned? && !s.conns[c].task.Ended? && !s.conns[c].task.Closing?
  {
    assert !Enabled(s, SpawnReader) && !Enabled(s, ClientClose(c)) && !Enabled(s, ClientDone(c));
  }

  lemma WritersIdle(s: State, c: nat)
    requires Inv(s) && AtRest(s) && c < |s.conns|
    ensures s.client.tasks == map[] && s.conns[c].server.tasks == map[]
  {
    assert WriterOk(s.conns[c].server, s.flags.ingress);
    ClientWriterRests(s);
    ServerWriterRests(s, c);
    RestIsIdle(s.client);
    RestIsIdle(s.conns[c].server);
  }

  /** Towards the server everything has arrived, whatever became of the client's task. */
  lemma UpArrives(s: State, c: nat)
    requires Inv(s) && AtRest(s) && c < |s.conns| && WayOk(s, c, Up) && !s.conns[c].up.end.Torn?
    ensures s.conns[c].up.tun == s.client.handles[c].accepted
  {
    WritersIdle(s, c);
    ServerReaderRests(s, c);
    IdleWire(s.client, c);
    assert StreamOk(s.client.handles[c]);
    if s.conns[c].up.end.Running? && |s.conns[c].up.tun| < |OnWire(s.client.handles[c])| {
      LeftCanBeRead(s.client.handles[c], s.conns[c].up, s.flags.egress);
    }
  }

  /** Towards the client everything has arrived unless its task was killed. */
  lemma DownArrives(s: State, c: nat)
    requires Inv(s) && AtRest(s) && c < |s.conns| && WayOk(s, c, Down) && !s.conns[c].down.end.Torn?
    requires !s.conns[c].task.Aborted?
    ensures s.conns[c].down.tun == s.conns[c].server.handles[0].accepted
  {
    var y := s.conns[c].server.handles[0];
    WritersIdle(s, c);
    ClientTaskRests(s, c);
    IdleWire(s.conns[c].server, 0);
    assert StreamOk(y) && EndOk(s.conns[c]);
    if s.conns[c].task.Reading? {
      ClientReaderRests(s, c);
      if |s.conns[c].down.tun| < |OnWire(y)| {
        LeftCanBeRead(y, s.conns[c].down, s.flags.ingress);
      }
    }
  }

  /** A connection that was not harmed and is not the newest is over: both sockets shut down, both readers at the end,
      the client's task done. */
  ghost predicate Over(s: State, c: nat)
    requires Shape(s) && c < |s.conns|
  {
    && s.client.handles[c].closed && s.conns[c].up.end.Clean?
    && s.conns[c].server.handles[0].closed && s.conns[c].down.end.Clean? && s.conns[c].task.Done?
  }

  lemma UpIsOver(s: State, c: nat)
    requires Inv(s) && AtRest(s) && c < |s.conns| - 1 && Unharmed(s, c)
    requires WayOk(s, c, Up) && WayOk(s, c, Down)
    ensures s.client.handles[c].closed && s.conns[c].up.end.Clean? && s.conns[c].server.handles[0].closed
  {
    WritersIdle(s, c);
    ServerReaderRests(s, c);
    UpArrives(s, c);
    IdleWire(s.client, c);
    assert W.SlotOk(s.client) && StreamOk(s.client.handles[c]);
    if s.conns[c].up.end.Running? {
      EndCanBeRead(s.client.handles[c], s.conns[c].up, s.flags.egress);
    }
  }

  lemma OldConnectionIsOver(s: State, c: nat)
    requires Inv(s) && AtRest(s) && c < |s.conns| - 1 && Unharmed(s, c)
    requires WayOk(s, c, Up) && WayOk(s, c, Down)
    ensures Over(s, c)
  {
    var y := s.conns[c].server.handles[0];
    UpIsOver(s, c);
    DownArrives(s, c);
    WritersIdle(s, c);
    ClientTaskRests(s, c);
    IdleWire(s.conns[c].server, 0);
    assert StreamOk(y) && EndOk(s.conns[c]);
    if s.conns[c].task.Reading? {
      ClientReaderRests(s, c);
      EndCanBeRead(y, s.conns[c].down, s.flags.ingress);
    }
  }

  // ---------------------------------------------------------------- the sent counters

  /** The packets that reached the server's tun device, over all connections. */
  function TotalDelivered(conns: seq<Conn>): nat {
    if conns == [] then 0
    else TotalDelivered(conns[..|conns| - 1]) + |conns[|conns| - 1].up.tun|
  }

  ghost predicate AllCounted(s: State) {
    Counted(s.client) && forall c :: 0 <= c < |s.conns| ==> Counted(s.conns[c].server)
  }

  lemma StepKeepsServerCounted(s: State, step: Step, c: nat)
    requires Inv(s) && AllCounted(s) && Enabled(s, step) && c < |s.conns|
    ensures c < |Apply(s, step).conns| && Counted(Apply(s, step).conns[c].server)
  {
    StepMoves(s, step, c);
    assert WriterOk(s.conns[c].server, s.flags.ingress);
    if ServerMove(s, step, c).Some? {
      StepKeepsCounted(s.conns[c].server, ServerMove(s, step, c).value);
    }
  }

  lemma NewConns(s: State, step: Step)
    requires Shape(s) && Enabled(s, step)
    ensures forall c :: |s.conns| <= c < |Apply(s, step).conns| ==> Apply(s, step).conns[c].server == NEW_SERVER
  {
  }

  lemma StepKeepsAllCounted(s: State, step: Step)
    requires Inv(s) && AllCounted(s) && Enabled(s, step)
    ensures AllCounted(Apply(s, step))
  {
    var s' := Apply(s, step);
    ClientMoves(s, step);
    if ClientMove(s, step).Some? {
      StepKeepsCounted(s.client, ClientMove(s, step).value);
    }
    NewConns(s, step);
    forall c | 0 <= c < |s'.conns|
      ensures Counted(s'.conns[c].server)
    {
      if c < |s.conns| {
        StepKeepsServerCounted(s, step, c);
      }
    }
  }

  lemma {:induction false} RunKeepsCounted(s: State, run: seq<Step>)
    requires Inv(s) && AllCounted(s) && Feasible(s, run)
    ensures AllCounted(After(s, run))
    decreases |run|
  {
    if run == [] {
    } else {
      StepKeepsAllCounted(s, run[0]);
      StepKeepsInv(s, run[0]);
      RunKeepsCounted(Apply(s, run[0]), run[1..]);
    }
  }

  lemma {:induction false} TotalsAgree(handles: seq<W.Handle>, conns: seq<Conn>)
    requires |handles| == |conns|
    requires forall c :: 0 <= c < |conns| ==> |conns[c].up.tun| == |handles[c].accepted|
    ensures TotalAccepted(handles) == TotalDelivered(conns)
  {
    if conns == [] {
    } else {
      TotalsAgree(handles[..|conns| - 1], conns[..|conns| - 1]);
    }
  }

  lemma OneHandleTotal(handles: seq<W.Handle>)
    requires |handles| == 1
    ensures TotalAccepted(handles) == |handles[0].accepted|
  {
    assert handles[..0] == [];
  }

  // ---------------------------------------------------------------- runs in which a reader is spared

  /** No socket fails the reader of that direction of connection `c`. */
  predicate SocketHolds(step: Step, c: nat, way: Way) {
    Fails(step, c, way) ==> !step.cause.Socket?
  }

  ghost predicate SocketHoldsIn(run: seq<Step>, c: nat, way: Way) {
    forall i :: 0 <= i < |run| ==> SocketHolds(run[i], c, way)
  }

  ghost predicate Whole(s: State, c: nat, way: Way) {
    WayKept(s, c, way) && (c < |s.conns| ==> !PipeOf(s.conns[c], way).end.Torn?)
  }

  lemma TornOnlyByFailure(s: State, step: Step, way: Way)
    requires Shape(s) && Enabled(s, step) && OnOneConn(step) && !Fails(step, step.c, way)
    requires step.c < |s.conns| == |Apply(s, step).conns|
    requires !PipeOf(s.conns[step.c], way).end.Torn?
    ensures !PipeOf(Apply(s, step).conns[step.c], way).end.Torn?
  {
  }

  /** Only a failure of its own tears a reader off its stream. */
  lemma TornByFailure(s: State, step: Step, c: nat, way: Way)
    requires Shape(s) && Enabled(s, step) && !Fails(step, c, way)
    requires c < |s.conns| ==> !PipeOf(s.conns[c], way).end.Torn?
    requires c < |Apply(s, step).conns|
    ensures !PipeOf(Apply(s, step).conns[c], way).end.Torn?
  {
    StepKeepsShape(s, step);
    if OnOneConn(step) {
      ConnStepFrame(s, step);
      if step.c == c {
        TornOnlyByFailure(s, step, way);
      }
    } else if c < |s.conns| {
      LoopLeavesPipes(s, step, c);
    }
  }

  lemma StepKeepsWhole(s: State, step: Step, c: nat, way: Way)
    requires Inv(s) && Enabled(s, step) && Whole(s, c, way)
    requires Proper(s, step, c, way) && SocketHolds(step, c, way)
    ensures Whole(Apply(s, step), c, way)
  {
    StepKeepsWayKept(s, step, c, way);
    if Fails(step, c, way) {
      FailureIsSocket(s, step, c, way);
    } else if c < |Apply(s, step).conns| {
      TornByFailure(s, step, c, way);
    }
  }

  lemma {:induction false} RunKeepsWhole(s: State, run: seq<Step>, c: nat, way: Way)
    requires Inv(s) && Feasible(s, run) && Whole(s, c, way)
    requires ProperRun(s, run, c, way) && SocketHoldsIn(run, c, way)
    ensures Inv(After(s, run)) && Whole(After(s, run), c, way)
    decreases |run|
  {
    if run == [] {
    } else {
      assert SocketHolds(run[0], c, way);
      StepKeepsWhole(s, run[0], c, way);
      StepKeepsInv(s, run[0]);
      RunKeepsWhole(Apply(s, run[0]), run[1..], c, way);
    }
  }

  /** Towards the server: every packet that connection `c` accepted has arrived. Towards the client: unless its task
      was killed, every packet that the server accepted, as many as it counted as sent. */
  ghost predicate Arrived(s: State, c: nat, way: Way)
    requires Shape(s) && c < |s.conns|
  {
    var conn := s.conns[c];
    match way
    case Up => conn.up.tun == s.client.handles[c].accepted
    case Down =>
      !conn.task.Aborted? ==>
        conn.down.tun == conn.server.handles[0].accepted && |conn.down.tun| == conn.server.stats.sent
  }

  lemma WayArrives(s: State, c: nat, way: Way)
    requires Inv(s) && AllCounted(s) && AtRest(s) && Whole(s, c, way) && c < |s.conns|
    ensures Arrived(s, c, way)
  {
    if way.Up? {
      UpArrives(s, c);
    } else if !s.conns[c].task.Aborted? {
      DownArrives(s, c);
      WritersIdle(s, c);
      IdleCountIsTotal(s.conns[c].server);
      OneHandleTotal(s.conns[c].server.handles);
    }
  }

  lemma RunIsCounted(flags: Flags, run: seq<Step>)
    requires Feasible(Start(flags), run)
    ensures Inv(After(Start(flags), run)) && AllCounted(After(Start(flags), run))
  {
    StartOk(flags);
    RunKeepsInv(Start(flags), run);
    RunKeepsCounted(Start(flags), run);
  }

  /** Whenever a run comes to rest: a direction of a connection in which only well-formed packets were sent, and whose
      reader no socket has failed, has brought everything, whatever happened in the other direction and on other
      connections, whoever was killed, and whichever writes failed. */
  lemma EverySentPacketArrives(flags: Flags, run: seq<Step>, c: nat, way: Way)
    requires Feasible(Start(flags), run) && ProperRun(Start(flags), run, c, way) && SocketHoldsIn(run, c, way)
    requires AtRest(After(Start(flags), run)) && c < |After(Start(flags), run).conns|
    ensures Arrived(After(Start(flags), run), c, way)
  {
    RunIsCounted(flags, run);
    StartOk(flags);
    RunKeepsWhole(Start(flags), run, c, way);
    WayArrives(After(Start(flags), run), c, way);
  }

  /** And if nothing harmed the connection, and it has been replaced, it is over. */
  lemma ReplacedConnectionsAreOver(flags: Flags, run: seq<Step>, c: nat)
    requires Feasible(Start(flags), run) && HarmlessRun(Start(flags), run, c)
    requires ProperRun(Start(flags), run, c, Up) && ProperRun(Start(flags), run, c, Down)
    requires AtRest(After(Start(flags), run)) && c < |After(Start(flags), run).conns| - 1
    ensures Over(After(Start(flags), run), c)
  {
    StartOk(flags);
    RunKeepsCared(Start(flags), run, c);
    OldConnectionIsOver(After(Start(flags), run), c);
  }

  lemma {:induction false} InternalIsSpared(s: State, run: seq<Step>, c: nat, way: Way)
    requires Feasible(s, run) && AllInternal(run)
    ensures ProperRun(s, run, c, way) && SocketHoldsIn(run, c, way)
    decreases |run|
  {
    if run == [] {
    } else {
      assert Internal(run[0]);
      forall i | 0 <= i < |run[1..]|
        ensures Internal(run[1..][i])
      {
        assert run[1..][i] == run[i + 1];
      }
      InternalIsSpared(Apply(s, run[0]), run[1..], c, way);
      assert forall i :: 0 <= i < |run| ==> Internal(run[i]);
    }
  }

  /** In every state of every run the tasks need nothing but themselves to bring all packets of such a direction. */
  lemma EverythingArrivesByItself(flags: Flags, run: seq<Step>, c: nat, way: Way) returns (more: seq<Step>)
    requires Feasible(Start(flags), run) && ProperRun(Start(flags), run, c, way) && SocketHoldsIn(run, c, way)
    requires c < |After(Start(flags), run).conns|
    ensures Feasible(After(Start(flags), run), more) && AllInternal(more)
    ensures var s := After(After(Start(flags), run), more); AtRest(s) && c < |s.conns| && Arrived(s, c, way)
  {
    RunIsCounted(flags, run);
    StartOk(flags);
    RunKeepsWhole(Start(flags), run, c, way);
    more := BringsAll(After(Start(flags), run), c, way);
  }

  lemma BringsAll(s: State, c: nat, way: Way) returns (more: seq<Step>)
    requires Inv(s) && AllCounted(s) && Whole(s, c, way) && c < |s.conns|
    ensures Feasible(s, more) && AllInternal(more)
    ensures AtRest(After(s, more)) && c < |After(s, more).conns| && Arrived(After(s, more), c, way)
  {
    more := RestIsNear(s);
    InternalIsSpared(s, more, c, way);
    RunKeepsWhole(s, more, c, way);
    RunKeepsCounted(s, more);
    ConnsStay(s, more);
    WayArrives(After(s, more), c, way);
  }

  lemma {:induction false} ConnsStay(s: State, run: seq<Step>)
    requires Inv(s) && Feasible(s, run)
    ensures |s.conns| <= |After(s, run).conns|
    decreases |run|
  {
    if run == [] {
    } else {
      StepKeepsShape(s, run[0]);
      StepKeepsInv(s, run[0]);
      ConnsStay(Apply(s, run[0]), run[1..]);
    }
  }

  // ---------------------------------------------------------------- totals

  /** What the servers of the client's connections counted as sent. */
  function TotalSent(conns: seq<Conn>): nat {
    if conns == [] then 0
    else TotalSent(conns[..|conns| - 1]) + conns[|conns| - 1].server.stats.sent
  }

  /** The packets that reached the client's tun device, over all connections. */
  function TotalForwarded(conns: seq<Conn>): nat {
    if conns == [] then 0
    else TotalForwarded(conns[..|conns| - 1]) + |conns[|conns| - 1].down.tun|
  }

  lemma {:induction false} ServerTotalsAgree(conns: seq<Conn>)
    requires forall c :: 0 <= c < |conns| ==> |conns[c].down.tun| == conns[c].server.stats.sent
    ensures TotalSent(conns) == TotalForwarded(conns)
  {
    if conns == [] {
    } else {
      ServerTotalsAgree(conns[..|conns| - 1]);
    }
  }

  lemma ClientTotal(s: State)
    requires W.Inv(s.client) && Counted(s.client) && AtRest(s)
    requires forall c :: 0 <= c < |s.conns| ==> s.conns[c].up.tun == s.client.handles[c].accepted
    ensures s.client.stats.sent == TotalDelivered(s.conns)
  {
    ClientWriterRests(s);
    RestIsIdle(s.client);
    IdleCountIsTotal(s.client);
    TotalsAgree(s.client.handles, s.conns);
  }

  /** Over all connections together: as many packets have reached the server's tun device as the client counted as
      sent. */
  lemma ClientTotalArrives(flags: Flags, run: seq<Step>)
    requires Feasible(Start(flags), run) && AtRest(After(Start(flags), run))
    requires forall c :: 0 <= c < |After(Start(flags), run).conns| ==>
               ProperRun(Start(flags), run, c, Up) && SocketHoldsIn(run, c, Up)
    ensures var s := After(Start(flags), run); s.client.stats.sent == TotalDelivered(s.conns)
  {
    var s := After(Start(flags), run);
    RunIsCounted(flags, run);
    forall c | 0 <= c < |s.conns|
      ensures s.conns[c].up.tun == s.client.handles[c].accepted
    {
      EverySentPacketArrives(flags, run, c, Up);
    }
    ClientTotal(s);
  }

  /** And as many the client's as the servers counted on its connections, if no task was killed. What a server counted
      beyond that, it sent on connections whose client had given up. */
  lemma ServerTotalsArrive(flags: Flags, run: seq<Step>)
    requires Feasible(Start(flags), run) && AtRest(After(Start(flags), run))
    requires forall c :: 0 <= c < |After(Start(flags), run).conns| ==>
               && ProperRun(Start(flags), run, c, Down) && SocketHoldsIn(run, c, Down)
               && !After(Start(flags), run).conns[c].task.Aborted?
    ensures var s := After(Start(flags), run); TotalSent(s.conns) == TotalForwarded(s.conns)
  {
    var s := After(Start(flags), run);
    forall c | 0 <= c < |s.conns|
      ensures |s.conns[c].down.tun| == s.conns[c].server.stats.sent
    {
      EverySentPacketArrives(flags, run, c, Down);
    }
    ServerTotalsAgree(s.conns);
  }
}
