/** What holds in every reachable state of a rotating client connection. */
module TunnelSafety {
  import opened Wire
  import opened PacketStream
  import opened Delivery
  import opened Endpoints
  import opened Tunnel
  import W = Writer

  // ---------------------------------------------------------------- which writers a step moves

  function ClientMove(s: State, step: Step): Option<W.Step>
    requires Shape(s) && Enabled(s, step)
  {
    match step
    case Send(packet) => Some(W.StartSend(s.nextTask, packet))
    case ClientAct(t, action) => Some(W.Act(t, action))
    case Connect => Some(W.Replace(s.nextTask))
    case ClientClose(c) => Some(W.CloseMatching(s.nextTask, c, s.conns[c].task.graceful))
    case RetirePrevious =>
      if s.previous.Some? && s.conns[s.previous.value].task.Closing?
         && W.Enabled(s.client, W.Act(s.conns[s.previous.value].task.t, W.Abort))
      then Some(W.Act(s.conns[s.previous.value].task.t, W.Abort)) else None
    case _ => None
  }

  function ServerMove(s: State, step: Step, c: nat): Option<W.Step> {
    match step
    case ServerSend(d, packet) => if c == d then Some(W.StartSend(s.nextTask, packet)) else None
    case ServerAct(d, t, action) => if c == d then Some(W.Act(t, action)) else None
    case ServerEof(d, goodbye) => if c == d then Some(W.Close(s.nextTask, Some(goodbye))) else None
    case ServerFail(d, _) => if c == d then Some(W.Close(s.nextTask, None)) else None
    case _ => None
  }

  predicate Moves(w: W.State, move: Option<W.Step>, w': W.State) {
    if move.Some? then W.Enabled(w, move.value) && w' == W.Apply(w, move.value) else w' == w
  }

  lemma StepMoves(s: State, step: Step, c: nat)
    requires Shape(s) && Enabled(s, step) && c < |s.conns|
    ensures c < |Apply(s, step).conns|
    ensures Moves(s.client, ClientMove(s, step), Apply(s, step).client)
    ensures Moves(s.conns[c].server, ServerMove(s, step, c), Apply(s, step).conns[c].server)
  {
  }

  lemma ClientMoves(s: State, step: Step)
    requires Shape(s) && Enabled(s, step)
    ensures Moves(s.client, ClientMove(s, step), Apply(s, step).client)
  {
  }

  predicate OnOneConn(step: Step) {
    step.ClientRead? || step.ClientEof? || step.ClientFail? || step.ServerRead?
    || step.ServerSend? || step.ServerAct? || step.ServerEof? || step.ServerFail?
  }

  lemma ConnStepFrame(s: State, step: Step)
    requires Shape(s) && Enabled(s, step) && OnOneConn(step)
    ensures var s' := Apply(s, step);
      && step.c < |s.conns| == |s'.conns|
      && s'.flags == s.flags && s'.client == s.client && s'.loop == s.loop && s'.previous == s.previous
      && s'.conns == s.conns[step.c := s'.conns[step.c]]
  {
  }

  // ---------------------------------------------------------------- writers

  ghost predicate NoSends(w: W.State) {
    forall t :: t in w.tasks ==> !W.IsSend(w.tasks[t])
  }

  ghost predicate WriterOk(w: W.State, sending: bool) {
    W.Inv(w) && (!sending ==> NoSends(w))
  }

  lemma StepKeepsNoSends(w: W.State, step: W.Step)
    requires NoSends(w) && W.Enabled(w, step) && !step.StartSend?
    ensures NoSends(W.Apply(w, step))
  {
  }

  lemma WriterStepKeepsOk(w: W.State, step: W.Step, sending: bool)
    requires WriterOk(w, sending) && W.Enabled(w, step)
    requires step.StartSend? ==> sending
    ensures WriterOk(W.Apply(w, step), sending)
  {
    W.StepKeepsInv(w, step);
    if !sending {
      StepKeepsNoSends(w, step);
    }
  }

  ghost predicate OrphanOk(w: W.State) {
    W.Inv(w) && |w.handles| == 1
  }

  /** All writers are in good order, whatever is sent. */
  ghost predicate WritersOk(s: State) {
    && Shape(s)
    && WriterOk(s.client, s.flags.egress)
    && (forall i :: 0 <= i < |s.orphans| ==> OrphanOk(s.orphans[i]))
    && forall c :: 0 <= c < |s.conns| ==> WriterOk(s.conns[c].server, s.flags.ingress)
  }

  lemma NewServerOk(sending: bool)
    ensures WriterOk(NEW_SERVER, sending)
  {
    assert W.HandleOk(W.NEW_HANDLE) && W.LockOk(NEW_SERVER, 0);
  }

  lemma WriterKeepsHandles(w: W.State, move: Option<W.Step>, w': W.State)
    requires Moves(w, move, w') && (move.Some? ==> !move.value.Replace?)
    ensures |w'.handles| == |w.handles|
  {
  }

  lemma ConnStepKeepsShape(s: State, step: Step)
    requires Shape(s) && Enabled(s, step) && OnOneConn(step)
    ensures Shape(Apply(s, step))
  {
    ConnStepFrame(s, step);
    StepMoves(s, step, step.c);
    WriterKeepsHandles(
      s.conns[step.c].server, ServerMove(s, step, step.c), Apply(s, step).conns[step.c].server);
  }

  lemma LoopStepKeepsShape(s: State, step: Step)
    requires Shape(s) && Enabled(s, step) && !OnOneConn(step)
    ensures Shape(Apply(s, step)) && Apply(s, step).flags == s.flags
    ensures |s.conns| <= |Apply(s, step).conns| <= |s.conns| + 1
    ensures |s.conns| < |Apply(s, step).conns| ==>
              step.Connect? && Apply(s, step).conns[|s.conns|] == Conn(NEW_SERVER, Unspawned, FRESH_PIPE, FRESH_PIPE)
  {
  }

  /** A step keeps the shape, adds at most one connection, and leaves the direction flags alone. */
  lemma StepKeepsShape(s: State, step: Step)
    requires Shape(s) && Enabled(s, step)
    ensures Shape(Apply(s, step)) && Apply(s, step).flags == s.flags
    ensures |s.conns| <= |Apply(s, step).conns| <= |s.conns| + 1
    ensures |s.conns| < |Apply(s, step).conns| ==>
              step.Connect? && Apply(s, step).conns[|s.conns|] == Conn(NEW_SERVER, Unspawned, FRESH_PIPE, FRESH_PIPE)
  {
    if OnOneConn(step) {
      ConnStepFrame(s, step);
      ConnStepKeepsShape(s, step);
    } else {
      LoopStepKeepsShape(s, step);
    }
  }

  lemma SendersMaySend(s: State, step: Step, c: nat)
    requires Shape(s) && Enabled(s, step)
    ensures ClientMove(s, step).Some? && ClientMove(s, step).value.StartSend? ==> s.flags.egress
    ensures ServerMove(s, step, c).Some? && ServerMove(s, step, c).value.StartSend? ==> s.flags.ingress
  {
  }

  lemma StepKeepsClientWriter(s: State, step: Step)
    requires WritersOk(s) && Enabled(s, step)
    ensures WriterOk(Apply(s, step).client, s.flags.egress)
  {
    ClientMoves(s, step);
    SendersMaySend(s, step, 0);
    if ClientMove(s, step).Some? {
      WriterStepKeepsOk(s.client, ClientMove(s, step).value, s.flags.egress);
    }
  }

  lemma StepKeepsServerWriter(s: State, step: Step, c: nat)
    requires WritersOk(s) && Enabled(s, step) && c < |s.conns|
    ensures c < |Apply(s, step).conns| && WriterOk(Apply(s, step).conns[c].server, s.flags.ingress)
  {
    StepMoves(s, step, c);
    SendersMaySend(s, step, c);
    if ServerMove(s, step, c).Some? {
      WriterStepKeepsOk(s.conns[c].server, ServerMove(s, step, c).value, s.flags.ingress);
    }
  }

  lemma OrphansAfter(s: State, step: Step)
    requires Shape(s) && Enabled(s, step)
    ensures var orphans' := Apply(s, step).orphans;
      if step.OrphanMove? then
        step.i < |s.orphans| && OrphanCan(s, s.orphans[step.i], step.move)
        && orphans' == s.orphans[step.i := W.Apply(s.orphans[step.i], step.move)]
      else orphans' == s.orphans || orphans' == s.orphans + [NEW_SERVER]
  {
  }

  lemma StepKeepsOrphans(s: State, step: Step)
    requires WritersOk(s) && Enabled(s, step)
    ensures forall i :: 0 <= i < |Apply(s, step).orphans| ==> OrphanOk(Apply(s, step).orphans[i])
  {
    OrphansAfter(s, step);
    NewServerOk(true);
    if step.OrphanMove? {
      W.StepKeepsInv(s.orphans[step.i], step.move);
    }
  }

  lemma StepKeepsWriters(s: State, step: Step)
    requires WritersOk(s) && Enabled(s, step)
    ensures WritersOk(Apply(s, step))
  {
    StepKeepsShape(s, step);
    StepKeepsClientWriter(s, step);
    StepKeepsOrphans(s, step);
    NewServerOk(s.flags.ingress);
    forall c | 0 <= c < |Apply(s, step).conns|
      ensures WriterOk(Apply(s, step).conns[c].server, s.flags.ingress)
    {
      if c < |s.conns| {
        StepKeepsServerWriter(s, step, c);
      }
    }
  }

  // ---------------------------------------------------------------- the streams of one connection

  lemma ActionGrowsWire(t: W.TaskId, task: W.Task, x: W.Handle, action: W.Action)
    requires W.HandleOk(x) && W.TaskOk(t, task, x) && W.CanAct(task, x, action)
    ensures OnWire(x) <= OnWire(W.HandleAfter(t, task, x, action))
    ensures !W.IsSend(task) ==> OnWire(x) == OnWire(W.HandleAfter(t, task, x, action))
  {
  }

  /** A writer step only extends what is on the wire, and leaves it alone if it is no send's. */
  lemma OnWireGrows(w: W.State, step: W.Step, h: nat)
    requires W.Inv(w) && W.Enabled(w, step) && h < |w.handles|
    ensures OnWire(w.handles[h]) <= OnWire(W.Apply(w, step).handles[h])
    ensures NoSends(w) ==> OnWire(w.handles[h]) == OnWire(W.Apply(w, step).handles[h])
  {
    if step.Act? && w.tasks[step.t].h == h {
      assert W.TaskOk(step.t, w.tasks[step.t], w.handles[h]) && W.HandleOk(w.handles[h]);
      ActionGrowsWire(step.t, w.tasks[step.t], w.handles[h], step.action);
    }
  }

  lemma WriterStepKeepsPipe(w: W.State, step: W.Step, h: nat, pipe: Pipe, accepting: bool)
    requires WriterOk(w, accepting) && W.Enabled(w, step) && h < |w.handles|
    requires PipeOk(pipe, w.handles[h], accepting)
    ensures h < |W.Apply(w, step).handles|
    ensures PipeOk(pipe, W.Apply(w, step).handles[h], accepting)
  {
    OnWireGrows(w, step, h);
    StepGrows(w, step, h);
  }

  /** A writer's handle carries well-formed packets, and its reader returns them faithfully. */
  ghost predicate StreamKept(w: W.State, h: nat, pipe: Pipe, accepting: bool)
    requires h < |w.handles|
  {
    HonestFor(w, h) && PipeOk(pipe, w.handles[h], accepting)
  }

  lemma WriterMoveKeepsStream(w: W.State, move: Option<W.Step>, w': W.State, h: nat, pipe: Pipe, accepting: bool)
    requires WriterOk(w, accepting) && h < |w.handles| && Moves(w, move, w')
    requires move.Some? ==> HonestOn(w, move.value, h)
    requires StreamKept(w, h, pipe, accepting)
    ensures h < |w'.handles| && StreamKept(w', h, pipe, accepting)
  {
    if move.Some? {
      WriterStepKeepsPipe(w, move.value, h, pipe, accepting);
      StepKeepsHonest(w, move.value, h);
    }
  }

  /** One direction of connection `c`. */
  ghost predicate WayOk(s: State, c: nat, way: Way)
    requires Shape(s) && c < |s.conns|
  {
    if way.Up? then StreamKept(s.client, c, s.conns[c].up, s.flags.egress)
    else StreamKept(s.conns[c].server, 0, s.conns[c].down, s.flags.ingress)
  }

  /** What a step can do to a reader of `x`. */
  ghost predicate PipeMoves(pipe: Pipe, x: W.Handle, accepting: bool, pipe': Pipe) {
    || pipe' == pipe
    || (exists avail: nat :: CanRead(pipe, x.bytes, avail) && pipe' == Read(pipe, x.bytes, avail, accepting))
    || (CanFinish(pipe, x) && pipe' == pipe.(end := Clean))
    || pipe' == pipe.(end := Torn)
  }

  lemma ConnPipesMove(s: State, step: Step)
    requires Shape(s) && Enabled(s, step) && OnOneConn(step) && step.c < |s.conns| == |Apply(s, step).conns|
    ensures PipeMoves(s.conns[step.c].up, s.client.handles[step.c], s.flags.egress, Apply(s, step).conns[step.c].up)
    ensures PipeMoves(
              s.conns[step.c].down, s.conns[step.c].server.handles[0], s.flags.ingress,
              Apply(s, step).conns[step.c].down)
  {
  }

  lemma LoopLeavesPipes(s: State, step: Step, c: nat)
    requires Shape(s) && Enabled(s, step) && !OnOneConn(step) && c < |s.conns|
    ensures c < |Apply(s, step).conns|
    ensures Apply(s, step).conns[c].up == s.conns[c].up && Apply(s, step).conns[c].down == s.conns[c].down
  {
  }

  lemma PipesMove(s: State, step: Step, c: nat)
    requires Shape(s) && Enabled(s, step) && c < |s.conns|
    ensures c < |Apply(s, step).conns|
    ensures PipeMoves(s.conns[c].up, s.client.handles[c], s.flags.egress, Apply(s, step).conns[c].up)
    ensures PipeMoves(s.conns[c].down, s.conns[c].server.handles[0], s.flags.ingress, Apply(s, step).conns[c].down)
  {
    if OnOneConn(step) {
      ConnStepFrame(s, step);
      ConnPipesMove(s, step);
    } else {
      LoopLeavesPipes(s, step, c);
    }
  }

  lemma PipeMoveKeepsOk(pipe: Pipe, x: W.Handle, accepting: bool, pipe': Pipe)
    requires StreamOk(x) && PipeOk(pipe, x, accepting) && PipeMoves(pipe, x, accepting, pipe')
    ensures PipeOk(pipe', x, accepting)
  {
    if CanFinish(pipe, x) && pipe' == pipe.(end := Clean) {
      FinishKeepsPipe(x, pipe, accepting);
    } else if avail: nat :| CanRead(pipe, x.bytes, avail) && pipe' == Read(pipe, x.bytes, avail, accepting) {
      ReadKeepsPipe(x, pipe, avail, accepting);
    }
  }

  lemma ProperMoves(s: State, step: Step, c: nat, way: Way)
    requires Shape(s) && Enabled(s, step) && Proper(s, step, c, way) && c < |s.conns|
    ensures way.Up? && ClientMove(s, step).Some? ==> HonestOn(s.client, ClientMove(s, step).value, c)
    ensures way.Down? && ServerMove(s, step, c).Some? ==>
              HonestOn(s.conns[c].server, ServerMove(s, step, c).value, 0)
  {
  }

  lemma StepKeepsUp(s: State, step: Step, c: nat)
    requires WritersOk(s) && Enabled(s, step) && c < |s.conns| && WayOk(s, c, Up) && Proper(s, step, c, Up)
    ensures Shape(Apply(s, step)) && c < |Apply(s, step).conns| && WayOk(Apply(s, step), c, Up)
  {
    var s' := Apply(s, step);
    StepKeepsShape(s, step);
    StepMoves(s, step, c);
    PipesMove(s, step, c);
    ProperMoves(s, step, c, Up);
    assert W.HandleOk(s.client.handles[c]);
    PipeMoveKeepsOk(s.conns[c].up, s.client.handles[c], s.flags.egress, s'.conns[c].up);
    WriterMoveKeepsStream(s.client, ClientMove(s, step), s'.client, c, s'.conns[c].up, s.flags.egress);
  }

  lemma StepKeepsDown(s: State, step: Step, c: nat)
    requires WritersOk(s) && Enabled(s, step) && c < |s.conns| && WayOk(s, c, Down) && Proper(s, step, c, Down)
    ensures Shape(Apply(s, step)) && c < |Apply(s, step).conns| && WayOk(Apply(s, step), c, Down)
  {
    var conn := s.conns[c];
    StepKeepsShape(s, step);
    StepMoves(s, step, c);
    PipesMove(s, step, c);
    ProperMoves(s, step, c, Down);
    var conn' := Apply(s, step).conns[c];
    assert W.HandleOk(conn.server.handles[0]);
    PipeMoveKeepsOk(conn.down, conn.server.handles[0], s.flags.ingress, conn'.down);
    WriterMoveKeepsStream(conn.server, ServerMove(s, step, c), conn'.server, 0, conn'.down, s.flags.ingress);
  }

  /** A step of the whole system keeps a direction of a connection in which only well-formed packets are sent. */
  lemma StepKeepsWay(s: State, step: Step, c: nat, way: Way)
    requires WritersOk(s) && Enabled(s, step) && c < |s.conns| && WayOk(s, c, way) && Proper(s, step, c, way)
    ensures Shape(Apply(s, step)) && c < |Apply(s, step).conns| && WayOk(Apply(s, step), c, way)
  {
    match way
    case Up => StepKeepsUp(s, step, c);
    case Down => StepKeepsDown(s, step, c);
  }

  lemma NewHandleIsKept(w: W.State, h: nat, accepting: bool)
    requires h < |w.handles| && w.handles[h] == W.NEW_HANDLE
    requires forall t :: t in w.tasks ==> w.tasks[t].h != h
    ensures StreamKept(w, h, FRESH_PIPE, accepting)
  {
  }

  lemma NewWayOk(s: State, step: Step, way: Way)
    requires WritersOk(s) && Enabled(s, step) && |s.conns| < |Apply(s, step).conns|
    ensures Shape(Apply(s, step)) && WayOk(Apply(s, step), |s.conns|, way)
  {
    StepKeepsShape(s, step);
    var s' := Apply(s, step);
    assert forall t :: t in s.client.tasks ==> s.client.tasks[t].h < |s.client.handles|;
    NewHandleIsKept(s'.client, |s.conns|, s.flags.egress);
    NewHandleIsKept(NEW_SERVER, 0, s.flags.ingress);
  }

  /** A reader that fails has been failed by a socket if it is sent only well-formed packets. */
  lemma FailureIsSocket(s: State, step: Step, c: nat, way: Way)
    requires WritersOk(s) && Enabled(s, step) && Fails(step, c, way) && c < |s.conns| && WayOk(s, c, way)
    ensures step.cause.Socket?
  {
    var conn, x := s.conns[c], s.client.handles[c];
    assert W.HandleOk(x) && W.HandleOk(conn.server.handles[0]);
    if step.cause.Content? && way.Up? {
      ContentNeverFails(x, conn.up, s.flags.egress, step.cause.avail, step.cause.end);
    } else if step.cause.Content? {
      ContentNeverFails(conn.server.handles[0], conn.down, s.flags.ingress, step.cause.avail, step.cause.end);
    }
  }
}
