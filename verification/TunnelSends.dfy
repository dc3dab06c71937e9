/** From the send to the tun device at the other end: a packet handed to a connection that is up is on its way, and the
    tasks by themselves bring it there. That rests on the order in which a connection is closed. */
module TunnelSends {
  import opened Wire
  import opened PacketStream
  import opened Delivery
  import opened Endpoints
  import opened Sends
  import opened Tunnel
  import opened TunnelSafety
  import opened TunnelLoop
  import opened TunnelRest
  import opened TunnelArrival
  import W = Writer

  // ---------------------------------------------------------------- the order of closing

  /** Nobody has begun to shut the server's socket down. */
  ghost predicate NotClosing(w: W.State) {
    && |w.handles| == 1 && !W.EndShows(w.handles[0])
    && forall t :: t in w.tasks ==> W.IsSend(w.tasks[t])
  }

  /** The client shuts its half down first; then the server, having read to the clean end, the other one; then the
      client's task ends in good order. */
  ghost predicate ClosesInOrder(conn: Conn, x: W.Handle)
    requires |conn.server.handles| == 1
  {
    && (conn.up.end.Clean? ==> W.EndShows(x))
    && (!conn.up.end.Clean? ==> NotClosing(conn.server))
    && (conn.down.end.Clean? ==> W.EndShows(conn.server.handles[0]))
    && (conn.task == Ended(true) || conn.task.Closing? ==> conn.down.end.Clean?)
  }

  ghost predicate AllCloseInOrder(s: State) {
    Shape(s) && forall c :: 0 <= c < |s.conns| ==> ClosesInOrder(s.conns[c], s.client.handles[c])
  }

  lemma WriterStepKeepsNotClosing(w: W.State, step: W.Step)
    requires W.Inv(w) && W.Enabled(w, step) && NotClosing(w)
    requires step.StartSend? || step.Act? || (step.Close? && step.farewell.None?)
    ensures NotClosing(W.Apply(w, step))
  {
    if step.Act? {
      assert W.HandleOk(w.handles[0]) && W.TaskOk(step.t, w.tasks[step.t], w.handles[0]);
    }
  }

  lemma ConnStepKeepsClean(s: State, step: Step)
    requires Shape(s) && Enabled(s, step) && OnOneConn(step) && step.c < |s.conns| == |Apply(s, step).conns|
    ensures s.conns[step.c].up.end.Clean? ==> Apply(s, step).conns[step.c].up.end.Clean?
    ensures s.conns[step.c].down.end.Clean? && EndOk(s.conns[step.c]) ==>
              Apply(s, step).conns[step.c].down.end.Clean?
  {
  }

  lemma CleanStays(s: State, step: Step, c: nat)
    requires Shape(s) && Enabled(s, step) && c < |s.conns|
    ensures c < |Apply(s, step).conns|
    ensures s.conns[c].up.end.Clean? ==> Apply(s, step).conns[c].up.end.Clean?
    ensures s.conns[c].down.end.Clean? && EndOk(s.conns[c]) ==> Apply(s, step).conns[c].down.end.Clean?
  {
    if OnOneConn(step) {
      ConnStepFrame(s, step);
      ConnStepKeepsClean(s, step);
    } else {
      LoopLeavesPipes(s, step, c);
    }
  }

  /** A clean end is reached only when the writer's socket is being shut down, and the task learns of it then. */
  ghost predicate ShownIfClean(conn: Conn, x: W.Handle, conn': Conn)
    requires |conn.server.handles| == 1
  {
    && (conn'.up.end.Clean? ==> conn.up.end.Clean? || W.EndShows(x))
    && (conn'.down.end.Clean? ==> conn.down.end.Clean? || W.EndShows(conn.server.handles[0]))
    && (conn'.task == Ended(true) ==> conn.task == Ended(true) || conn'.down.end.Clean?)
    && (conn'.task.Closing? ==> conn.task.Closing? || conn.task == Ended(true))
  }

  lemma ConnStepShows(s: State, step: Step)
    requires Shape(s) && Enabled(s, step) && OnOneConn(step) && step.c < |s.conns| == |Apply(s, step).conns|
    ensures ShownIfClean(s.conns[step.c], s.client.handles[step.c], Apply(s, step).conns[step.c])
  {
  }

  lemma LoopStepShows(s: State, step: Step, c: nat)
    requires Shape(s) && Enabled(s, step) && !OnOneConn(step) && c < |s.conns| && c < |Apply(s, step).conns|
    ensures ShownIfClean(s.conns[c], s.client.handles[c], Apply(s, step).conns[c])
  {
    LoopLeavesPipes(s, step, c);
  }

  lemma CleanMeansShown(s: State, step: Step, c: nat)
    requires Shape(s) && Enabled(s, step) && c < |s.conns| && c < |Apply(s, step).conns|
    ensures ShownIfClean(s.conns[c], s.client.handles[c], Apply(s, step).conns[c])
  {
    if OnOneConn(step) {
      ConnStepFrame(s, step);
      ConnStepShows(s, step);
    } else {
      LoopStepShows(s, step, c);
    }
  }

  /** The server shuts its socket down only after the clean end. */
  lemma ServerClosesLast(s: State, step: Step, c: nat)
    requires Shape(s) && Enabled(s, step) && c < |s.conns| && c < |Apply(s, step).conns|
    requires !Apply(s, step).conns[c].up.end.Clean?
    ensures ServerMove(s, step, c).Some? ==>
              var move := ServerMove(s, step, c).value;
              move.StartSend? || move.Act? || (move.Close? && move.farewell.None?)
  {
  }

  lemma MoveKeepsEnd(w: W.State, move: Option<W.Step>, w': W.State, h: nat)
    requires W.Inv(w) && Moves(w, move, w') && h < |w.handles| && W.EndShows(w.handles[h])
    ensures h < |w'.handles| && W.EndShows(w'.handles[h])
  {
    if move.Some? {
      StepGrows(w, move.value, h);
    }
  }

  lemma StepKeepsOrder(s: State, step: Step, c: nat)
    requires Inv(s) && AllCloseInOrder(s) && Enabled(s, step) && c < |s.conns|
    ensures Shape(Apply(s, step)) && c < |Apply(s, step).conns|
    ensures ClosesInOrder(Apply(s, step).conns[c], Apply(s, step).client.handles[c])
  {
    var s' := Apply(s, step);
    StepKeepsShape(s, step);
    StepMoves(s, step, c);
    CleanStays(s, step, c);
    CleanMeansShown(s, step, c);
    assert WriterOk(s.conns[c].server, s.flags.ingress) && ClosesInOrder(s.conns[c], s.client.handles[c]);
    assert EndOk(s.conns[c]);
    if W.EndShows(s.client.handles[c]) {
      MoveKeepsEnd(s.client, ClientMove(s, step), s'.client, c);
    }
    if W.EndShows(s.conns[c].server.handles[0]) {
      MoveKeepsEnd(s.conns[c].server, ServerMove(s, step, c), s'.conns[c].server, 0);
    }
    if !s'.conns[c].up.end.Clean? {
      ServerClosesLast(s, step, c);
      if ServerMove(s, step, c).Some? {
        WriterStepKeepsNotClosing(s.conns[c].server, ServerMove(s, step, c).value);
      }
    }
  }

  lemma StepKeepsAllInOrder(s: State, step: Step)
    requires Inv(s) && AllCloseInOrder(s) && Enabled(s, step)
    ensures AllCloseInOrder(Apply(s, step))
  {
    StepKeepsShape(s, step);
    forall c | 0 <= c < |Apply(s, step).conns|
      ensures ClosesInOrder(Apply(s, step).conns[c], Apply(s, step).client.handles[c])
    {
      if c < |s.conns| {
        StepKeepsOrder(s, step, c);
      }
    }
  }

  lemma {:induction false} RunKeepsOrder(s: State, run: seq<Step>)
    requires Inv(s) && AllCloseInOrder(s) && Feasible(s, run)
    ensures Inv(After(s, run)) && AllCloseInOrder(After(s, run))
    decreases |run|
  {
    if run == [] {
    } else {
      StepKeepsAllInOrder(s, run[0]);
      StepKeepsInv(s, run[0]);
      RunKeepsOrder(Apply(s, run[0]), run[1..]);
    }
  }

  /** In every reachable state every connection is closed in that order, whatever fails. */
  lemma ConnectionsCloseInOrder(flags: Flags, run: seq<Step>)
    requires Feasible(Start(flags), run)
    ensures AllCloseInOrder(After(Start(flags), run))
  {
    StartOk(flags);
    RunKeepsOrder(Start(flags), run);
  }

  // ---------------------------------------------------------------- a connection that is up

  /** The client's half of connection `c` is open and nobody is about to shut it down. */
  ghost predicate IsUp(s: State, c: nat) {
    Inv(s) && AllCloseInOrder(s) && c < |s.conns| && Unthreatened(s.client, c) && !s.conns[c].task.Aborted?
  }

  lemma OpenIsUp(s: State, c: nat)
    requires Inv(s) && AllCloseInOrder(s) && s.client.slot == Some(c)
    requires c < |s.client.handles| && s.client.handles[c].open
    ensures IsUp(s, c)
  {
    assert W.SlotOk(s.client);
  }

  /** As long as it is, the server sees no end and the client's task does not end in good order. */
  lemma NoEndWhileUp(s: State, c: nat)
    requires IsUp(s, c)
    ensures !s.conns[c].up.end.Clean? && s.conns[c].task != Ended(true) && NotClosing(s.conns[c].server)
  {
    assert ClosesInOrder(s.conns[c], s.client.handles[c]);
  }

  lemma CloseLeavesOthers(w: W.State, t: W.TaskId, d: nat, shutdown: bool, c: nat)
    requires W.Enabled(w, W.CloseMatching(t, d, shutdown)) && Unthreatened(w, c) && (c == d ==> !shutdown)
    ensures Unthreatened(W.Apply(w, W.CloseMatching(t, d, shutdown)), c)
  {
  }

  lemma InternalMoves(s: State, step: Step)
    requires Shape(s) && Enabled(s, step) && Internal(step)
    ensures ClientMove(s, step).Some? ==> IsOwn(ClientMove(s, step).value) || step.ClientClose?
    ensures forall c :: ServerMove(s, step, c).Some? ==> IsOwn(ServerMove(s, step, c).value) || step.ServerEof?
    ensures forall c :: 0 <= c < |s.conns| && !s.conns[c].task.Aborted? ==>
              c < |Apply(s, step).conns| && !Apply(s, step).conns[c].task.Aborted?
  {
  }

  lemma InternalKeepsUp(s: State, step: Step, c: nat)
    requires IsUp(s, c) && Enabled(s, step) && Internal(step)
    ensures IsUp(Apply(s, step), c)
  {
    StepKeepsInv(s, step);
    StepKeepsAllInOrder(s, step);
    StepKeepsShape(s, step);
    StepMoves(s, step, c);
    InternalMoves(s, step);
    NoEndWhileUp(s, c);
    if step.ClientClose? {
      CloseLeavesOthers(s.client, s.nextTask, step.c, s.conns[step.c].task.graceful, c);
    } else if ClientMove(s, step).Some? {
      OwnStepKeepsOpen(s.client, ClientMove(s, step).value, c);
    }
  }

  /** The server's half is open too, and stays so. */
  lemma InternalKeepsServerUp(s: State, step: Step, c: nat)
    requires IsUp(s, c) && Enabled(s, step) && Internal(step) && Unthreatened(s.conns[c].server, 0)
    ensures c < |Apply(s, step).conns| && Unthreatened(Apply(s, step).conns[c].server, 0)
  {
    StepMoves(s, step, c);
    InternalMoves(s, step);
    NoEndWhileUp(s, c);
    assert WriterOk(s.conns[c].server, s.flags.ingress);
    if ServerMove(s, step, c).Some? {
      assert !step.ServerEof?;
      OwnStepKeepsOpen(s.conns[c].server, ServerMove(s, step, c).value, 0);
    }
  }

  lemma MoveKeepsUnderWay(
    w: W.State, move: Option<W.Step>, w': W.State, t: W.TaskId, h: nat, packet: Bytes, n: nat)
    requires W.Inv(w) && Moves(w, move, w') && h < |w.handles| && UnderWay(w, t, h, packet, n)
    requires Unthreatened(w', h)
    ensures UnderWay(w', t, h, packet, n)
  {
    if move.Some? {
      StepKeepsUnderWay(w, move.value, t, h, packet, n);
    }
  }

  /** What a sender has handed over in one direction is on its way. */
  ghost predicate OnItsWay(s: State, c: nat, way: Way, t: W.TaskId, packet: Bytes, n: nat) {
    && IsUp(s, c)
    && match way
       case Up => UnderWay(s.client, t, c, packet, n)
       case Down => Unthreatened(s.conns[c].server, 0) && UnderWay(s.conns[c].server, t, 0, packet, n)
  }

  lemma InternalKeepsOnItsWay(s: State, step: Step, c: nat, way: Way, t: W.TaskId, packet: Bytes, n: nat)
    requires OnItsWay(s, c, way, t, packet, n) && Enabled(s, step) && Internal(step)
    ensures OnItsWay(Apply(s, step), c, way, t, packet, n)
  {
    var s' := Apply(s, step);
    InternalKeepsUp(s, step, c);
    StepMoves(s, step, c);
    assert WriterOk(s.conns[c].server, s.flags.ingress);
    match way
    case Up => MoveKeepsUnderWay(s.client, ClientMove(s, step), s'.client, t, c, packet, n);
    case Down =>
      InternalKeepsServerUp(s, step, c);
      MoveKeepsUnderWay(s.conns[c].server, ServerMove(s, step, c), s'.conns[c].server, t, 0, packet, n);
  }

  lemma InternalRest(run: seq<Step>)
    requires run != [] && AllInternal(run)
    ensures Internal(run[0]) && AllInternal(run[1..])
  {
    forall i | 0 <= i < |run[1..]|
      ensures Internal(run[1..][i])
    {
      assert run[1..][i] == run[i + 1];
    }
  }

  lemma {:induction false} RunKeepsOnItsWay(
    s: State, run: seq<Step>, c: nat, way: Way, t: W.TaskId, packet: Bytes, n: nat)
    requires OnItsWay(s, c, way, t, packet, n) && Feasible(s, run) && AllInternal(run)
    ensures OnItsWay(After(s, run), c, way, t, packet, n)
    decreases |run|
  {
    if run == [] {
    } else {
      InternalRest(run);
      InternalKeepsOnItsWay(s, run[0], c, way, t, packet, n);
      RunKeepsOnItsWay(Apply(s, run[0]), run[1..], c, way, t, packet, n);
    }
  }

  // ---------------------------------------------------------------- from the send to the other end

  function WriterOf(s: State, c: nat, way: Way): W.State
    requires c < |s.conns|
  {
    if way.Up? then s.client else s.conns[c].server
  }

  function HandleOf(c: nat, way: Way): nat {
    if way.Up? then c else 0
  }

  /** The packets written to the connection in that direction. */
  function AcceptedOn(s: State, c: nat, way: Way): seq<Bytes>
    requires c < |s.conns| && HandleOf(c, way) < |WriterOf(s, c, way).handles|
  {
    WriterOf(s, c, way).handles[HandleOf(c, way)].accepted
  }

  function SendStep(c: nat, way: Way, packet: Bytes): Step {
    if way.Up? then Send(packet) else ServerSend(c, packet)
  }

  /** Connection `c` is the client's current one and open, and the server's half is open too if the packet goes that
      way; the direction is one it carries. */
  ghost predicate CanCarry(s: State, c: nat, way: Way) {
    && Shape(s) && c < |s.conns| && s.client.slot == Some(c) && s.client.handles[c].open
    && match way
       case Up => s.flags.egress
       case Down => s.flags.ingress && s.conns[c].server.slot == Some(0) && s.conns[c].server.handles[0].open
  }

  lemma SendIsOnItsWay(s: State, c: nat, way: Way, packet: Bytes)
    requires Inv(s) && AllCloseInOrder(s) && CanCarry(s, c, way)
    ensures Enabled(s, SendStep(c, way, packet))
    ensures var h := HandleOf(c, way);
      h < |WriterOf(s, c, way).handles|
      && OnItsWay(Apply(s, SendStep(c, way, packet)), c, way, s.nextTask, packet, |AcceptedOn(s, c, way)|)
  {
    var s' := Apply(s, SendStep(c, way, packet));
    assert WriterOk(s.conns[c].server, s.flags.ingress) && s.nextTask !in WriterOf(s, c, way).tasks;
    StepKeepsInv(s, SendStep(c, way, packet));
    StepKeepsAllInOrder(s, SendStep(c, way, packet));
    SendBegins(WriterOf(s, c, way), s.nextTask, packet, HandleOf(c, way));
    OpenIsUp(s, c);
    assert IsUp(s', c);
    if way.Down? {
      assert W.SlotOk(s.conns[c].server);
    }
  }

  /** The packet has been written and counted, as the `i`-th of its connection and not one of the first `n`. */
  ghost predicate IsSent(s: State, c: nat, way: Way, packet: Bytes, n: nat, i: nat) {
    Shape(s) && c < |s.conns| && n <= i && SentAt(WriterOf(s, c, way), HandleOf(c, way), packet, i)
  }

  lemma AtRestIsSent(s: State, c: nat, way: Way, t: W.TaskId, packet: Bytes, n: nat)
    requires OnItsWay(s, c, way, t, packet, n) && AtRest(s)
    ensures exists i :: IsSent(s, c, way, packet, n, i)
  {
    WritersIdle(s, c);
    var i :| n <= i && SentAt(WriterOf(s, c, way), HandleOf(c, way), packet, i);
    assert IsSent(s, c, way, packet, n, i);
  }

  /** In every reachable state whose current connection is open: a packet handed to the client now, or to the server on
      that connection, is written and counted as sent once the tasks by themselves, taking whatever steps they can in
      any order, have come to rest. */
  lemma SentPacketIsWritten(flags: Flags, run: seq<Step>, c: nat, way: Way, packet: Bytes, more: seq<Step>)
    requires Feasible(Start(flags), run) && CanCarry(After(Start(flags), run), c, way)
    requires Enabled(After(Start(flags), run), SendStep(c, way, packet)) ==>
               && Feasible(Apply(After(Start(flags), run), SendStep(c, way, packet)), more) && AllInternal(more)
               && AtRest(After(Apply(After(Start(flags), run), SendStep(c, way, packet)), more))
    ensures var s := After(Start(flags), run);
      && Enabled(s, SendStep(c, way, packet))
      && exists i :: IsSent(After(Apply(s, SendStep(c, way, packet)), more), c, way, packet,
                            |AcceptedOn(s, c, way)|, i)
  {
    var s := After(Start(flags), run);
    StartOk(flags);
    RunKeepsOrder(Start(flags), run);
    SendIsOnItsWay(s, c, way, packet);
    var s', n := Apply(s, SendStep(c, way, packet)), |AcceptedOn(s, c, way)|;
    RunKeepsOnItsWay(s', more, c, way, s.nextTask, packet, n);
    AtRestIsSent(After(s', more), c, way, s.nextTask, packet, n);
  }

  /** And it reaches the tun device at the other end, if it is well formed, as is whatever was sent that way on the
      connection before, and no socket has failed the reader. */
  lemma SentPacketArrives(flags: Flags, run: seq<Step>, c: nat, way: Way, packet: Bytes) returns (more: seq<Step>)
    requires Feasible(Start(flags), run) && CanCarry(After(Start(flags), run), c, way)
    requires ProperRun(Start(flags), run, c, way) && SocketHoldsIn(run, c, way) && WellFormed(packet)
    ensures var s := After(Start(flags), run);
      && Enabled(s, SendStep(c, way, packet)) && Feasible(Apply(s, SendStep(c, way, packet)), more) && AllInternal(more)
      && var s', n := After(Apply(s, SendStep(c, way, packet)), more),
                      |AcceptedOn(s, c, way)|;
      && AtRest(s')
      && exists i :: IsSent(s', c, way, packet, n, i) && PipeOf(s'.conns[c], way).tun == AcceptedOn(s', c, way)
  {
    var s, step := After(Start(flags), run), SendStep(c, way, packet);
    StartOk(flags);
    RunKeepsOrder(Start(flags), run);
    RunIsCounted(flags, run);
    RunKeepsWhole(Start(flags), run, c, way);
    SendIsOnItsWay(s, c, way, packet);
    StepKeepsWhole(s, step, c, way);
    StepKeepsAllCounted(s, step);
    more := BringsAll(Apply(s, step), c, way);
    var s', n := After(Apply(s, step), more), |AcceptedOn(s, c, way)|;
    RunKeepsOnItsWay(Apply(s, step), more, c, way, s.nextTask, packet, n);
    AtRestIsSent(s', c, way, s.nextTask, packet, n);
    var i :| IsSent(s', c, way, packet, n, i);
    assert IsSent(s', c, way, packet, n, i) && PipeOf(s'.conns[c], way).tun == AcceptedOn(s', c, way);
  }
}
