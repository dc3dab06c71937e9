/** What a connection is owed whose sockets do not fail and whose task is not killed, whatever happens to the others: in
    neither direction it loses anything. */
module TunnelLossless {
  import opened Wire
  import opened PacketStream
  import opened Delivery
  import opened Endpoints
  import opened Tunnel
  import opened TunnelSafety
  import opened TunnelLoop
  import W = Writer

  // ---------------------------------------------------------------- one handle

  /** The step does handle `h` no harm: no I/O error or killed shutdown on it, and it is not dropped without a
      shutdown. */
  predicate Healthy(w: W.State, step: W.Step, h: nat)
    requires W.Enabled(w, step)
  {
    match step
    case Act(t, action) => w.tasks[t].h == h ==> !action.Fail? && !action.Abort?
    case CloseMatching(_, d, shutdown) => d == h ==> shutdown
    case Close(_, farewell) => w.slot == Some(h) ==> farewell.Some?
    case _ => true
  }

  predicate ShutsDown(task: W.Task, h: nat) {
    !W.IsSend(task) && task.h == h
  }

  ghost predicate ShuttingDown(w: W.State, h: nat) {
    exists t :: t in w.tasks && ShutsDown(w.tasks[t], h)
  }

  /** A handle is in the slot, or someone is shutting it down, or its socket has been shut down: it is not forgotten. */
  ghost predicate Tended(w: W.State, h: nat)
    requires h < |w.handles|
  {
    w.slot == Some(h) || w.handles[h].closed || ShuttingDown(w, h)
  }

  /** It has at most one shutdown, and one that waits finds it open. */
  ghost predicate ShutdownSound(w: W.State, h: nat)
    requires h < |w.handles|
  {
    && (forall t :: t in w.tasks && w.tasks[t].ShutLock? && w.tasks[t].h == h ==> w.handles[h].open)
    && (forall t, u :: t in w.tasks && u in w.tasks && ShutsDown(w.tasks[t], h) && ShutsDown(w.tasks[u], h) ==> t == u)
  }

  ghost predicate Sound(w: W.State, h: nat)
    requires h < |w.handles|
  {
    Tended(w, h) && (w.slot == Some(h) ==> w.handles[h].open) && ShutdownSound(w, h)
  }

  lemma ActFacts(t: W.TaskId, task: W.Task, x: W.Handle, action: W.Action)
    requires W.CanAct(task, x, action)
    ensures W.IsSend(task) && x.open && !action.Fail? ==> W.HandleAfter(t, task, x, action).open
    ensures W.TaskAfter(task, x, action).Some? ==>
              var next := W.TaskAfter(task, x, action).value;
              next.h == task.h && W.IsSend(next) == W.IsSend(task) && !next.ShutLock?
  {
  }

  /** Another task, or the same one on another handle, is what it was. */
  lemma OtherTaskStays(w: W.State, t: W.TaskId, action: W.Action, u: W.TaskId)
    requires W.Enabled(w, W.Act(t, action)) && u != t
    ensures var w' := W.Apply(w, W.Act(t, action));
      (u in w'.tasks <==> u in w.tasks) && (u in w.tasks ==> w'.tasks[u] == w.tasks[u])
  {
  }

  /** A shutdown goes on until the socket is closed. */
  lemma ShutdownGoesOn(w: W.State, t: W.TaskId, action: W.Action, h: nat)
    requires W.Inv(w) && W.Enabled(w, W.Act(t, action)) && Healthy(w, W.Act(t, action), h)
    requires h < |w.handles| && Sound(w, h) && ShutsDown(w.tasks[t], h)
    ensures Tended(W.Apply(w, W.Act(t, action)), h)
  {
    var w' := W.Apply(w, W.Act(t, action));
    if !w'.handles[h].closed {
      assert t in w'.tasks && ShutsDown(w'.tasks[t], h);
    }
  }

  lemma ActKeepsTended(w: W.State, t: W.TaskId, action: W.Action, h: nat)
    requires W.Inv(w) && W.Enabled(w, W.Act(t, action)) && Healthy(w, W.Act(t, action), h)
    requires h < |w.handles| && Sound(w, h)
    ensures Tended(W.Apply(w, W.Act(t, action)), h)
  {
    if ShutsDown(w.tasks[t], h) {
      ShutdownGoesOn(w, t, action, h);
    } else if ShuttingDown(w, h) {
      var u :| u in w.tasks && ShutsDown(w.tasks[u], h);
      OtherTaskStays(w, t, action, u);
      assert ShutsDown(W.Apply(w, W.Act(t, action)).tasks[u], h);
    } else {
      assert w.handles[h].closed ==> W.Apply(w, W.Act(t, action)).handles[h].closed;
    }
  }

  lemma ActKeepsShutdown(w: W.State, t: W.TaskId, action: W.Action, h: nat)
    requires W.SlotOk(w) && W.Enabled(w, W.Act(t, action)) && Healthy(w, W.Act(t, action), h)
    requires h < |w.handles| && Sound(w, h)
    ensures ShutdownSound(W.Apply(w, W.Act(t, action)), h)
    ensures w.slot == Some(h) ==> W.Apply(w, W.Act(t, action)).handles[h].open
  {
    var w', task := W.Apply(w, W.Act(t, action)), w.tasks[t];
    ActFacts(t, task, w.handles[task.h], action);
    forall u | u in w'.tasks && w'.tasks[u].ShutLock? && w'.tasks[u].h == h
      ensures w'.handles[h].open
    {
      assert u != t && w'.tasks[u] == w.tasks[u] && ShutsDown(w.tasks[u], h);
      assert ShutsDown(task, h) ==> u == t;
    }
    forall u, v | u in w'.tasks && v in w'.tasks && ShutsDown(w'.tasks[u], h) && ShutsDown(w'.tasks[v], h)
      ensures u == v
    {
      assert ShutsDown(w.tasks[u], h) && ShutsDown(w.tasks[v], h);
    }
  }

  lemma SlotStepKeepsTended(w: W.State, step: W.Step, h: nat)
    requires W.Enabled(w, step) && Healthy(w, step, h) && !step.Act?
    requires h < |w.handles| && Tended(w, h)
    ensures h < |W.Apply(w, step).handles| && Tended(W.Apply(w, step), h)
  {
    var w' := W.Apply(w, step);
    if w.slot == Some(h) && w'.slot != Some(h) {
      assert step.t in w'.tasks && ShutsDown(w'.tasks[step.t], h);
    } else if ShuttingDown(w, h) {
      var u :| u in w.tasks && ShutsDown(w.tasks[u], h);
      assert u in w'.tasks && w'.tasks[u] == w.tasks[u];
    }
  }

  lemma SlotStepKeepsShutdown(w: W.State, step: W.Step, h: nat)
    requires W.SlotOk(w) && W.Enabled(w, step) && !step.Act?
    requires h < |w.handles| && Sound(w, h)
    ensures h < |W.Apply(w, step).handles| && ShutdownSound(W.Apply(w, step), h)
    ensures W.Apply(w, step).slot == Some(h) ==> W.Apply(w, step).handles[h].open
  {
    assert w.slot == Some(h) ==> forall t :: t in w.tasks ==> !ShutsDown(w.tasks[t], h);
  }

  lemma StepKeepsSound(w: W.State, step: W.Step, h: nat)
    requires W.Inv(w) && W.Enabled(w, step) && Healthy(w, step, h)
    requires h < |w.handles| && Sound(w, h)
    ensures h < |W.Apply(w, step).handles| && Sound(W.Apply(w, step), h)
  {
    if step.Act? {
      ActKeepsTended(w, step.t, step.action, h);
      ActKeepsShutdown(w, step.t, step.action, h);
    } else {
      SlotStepKeepsTended(w, step, h);
      SlotStepKeepsShutdown(w, step, h);
    }
  }

  // ---------------------------------------------------------------- one connection

  /** No socket of connection `c` fails, in reading or in writing, and its task has finished when its time is up. A
      reader may still refuse what it is sent; and other connections may break, and their tasks be killed, at any
      time. */
  predicate Harmless(s: State, step: Step, c: nat)
    requires Shape(s) && Enabled(s, step)
  {
    match step
    case ClientAct(t, action) => s.client.tasks[t].h == c ==> !action.Fail?
    case ServerAct(d, _, action) => d == c ==> !action.Fail?
    case ClientFail(d, cause) => d == c ==> !cause.Socket?
    case ServerFail(d, cause) => d == c ==> !cause.Socket?
    case RetirePrevious => s.previous == Some(c) ==> s.conns[c].task.Done?
    case _ => true
  }

  predicate ConnUnharmed(conn: Conn) {
    && !conn.up.end.Torn? && !conn.down.end.Torn?
    && !conn.task.Aborted? && (conn.task.Ended? ==> conn.task.graceful)
    && (if conn.task.Unspawned? || conn.task.Reading? then conn.down.end.Running? else conn.down.end.Clean?)
    && (conn.up.end.Clean? ==> conn.server.slot.None?)
  }

  ghost predicate Unharmed(s: State, c: nat)
    requires Shape(s) && c < |s.conns|
  {
    ConnUnharmed(s.conns[c]) && Sound(s.client, c) && Sound(s.conns[c].server, 0)
  }

  lemma ConnStepKeepsUnharmed(s: State, step: Step)
    requires Shape(s) && Enabled(s, step) && OnOneConn(step) && !step.ClientFail? && !step.ServerFail?
    requires step.c < |s.conns| == |Apply(s, step).conns| && ConnUnharmed(s.conns[step.c])
    ensures ConnUnharmed(Apply(s, step).conns[step.c])
  {
  }

  lemma LoopStepKeepsUnharmed(s: State, step: Step, c: nat)
    requires LoopOk(s) && Enabled(s, step) && Harmless(s, step, c) && !OnOneConn(step)
    requires c < |s.conns| && c < |Apply(s, step).conns| && ConnUnharmed(s.conns[c])
    ensures ConnUnharmed(Apply(s, step).conns[c])
  {
  }

  predicate FailsOn(step: Step, c: nat) {
    (step.ClientFail? || step.ServerFail?) && step.c == c
  }

  lemma StepKeepsConnUnharmed(s: State, step: Step, c: nat)
    requires LoopOk(s) && Enabled(s, step) && Harmless(s, step, c) && !FailsOn(step, c)
    requires c < |s.conns| && c < |Apply(s, step).conns| && ConnUnharmed(s.conns[c])
    ensures ConnUnharmed(Apply(s, step).conns[c])
  {
    if OnOneConn(step) {
      ConnStepFrame(s, step);
      if step.c == c {
        ConnStepKeepsUnharmed(s, step);
      }
    } else {
      LoopStepKeepsUnharmed(s, step, c);
    }
  }

  lemma MovesAreHealthy(s: State, step: Step, c: nat)
    requires LoopOk(s) && Enabled(s, step) && Harmless(s, step, c) && !FailsOn(step, c)
    requires c < |s.conns| && ConnUnharmed(s.conns[c])
    requires Moves(s.client, ClientMove(s, step), Apply(s, step).client)
    requires Moves(s.conns[c].server, ServerMove(s, step, c), Apply(s, step).conns[c].server)
    ensures ClientMove(s, step).Some? ==> Healthy(s.client, ClientMove(s, step).value, c)
    ensures ServerMove(s, step, c).Some? ==> Healthy(s.conns[c].server, ServerMove(s, step, c).value, 0)
  {
  }

  lemma MoveKeepsSound(w: W.State, move: Option<W.Step>, w': W.State, h: nat)
    requires W.Inv(w) && Moves(w, move, w') && h < |w.handles| && Sound(w, h)
    requires move.Some? ==> Healthy(w, move.value, h)
    ensures h < |w'.handles| && Sound(w', h)
  {
    if move.Some? {
      StepKeepsSound(w, move.value, h);
    }
  }

  lemma StepKeepsUnharmed(s: State, step: Step, c: nat)
    requires Inv(s) && c < |s.conns| && WayOk(s, c, Up) && WayOk(s, c, Down) && Unharmed(s, c)
    requires Enabled(s, step) && Harmless(s, step, c)
    ensures Shape(Apply(s, step)) && c < |Apply(s, step).conns| && Unharmed(Apply(s, step), c)
  {
    if FailsOn(step, c) {
      FailureIsSocket(s, step, c, if step.ServerFail? then Up else Down);
      assert false;
    }
    var s' := Apply(s, step);
    StepKeepsShape(s, step);
    StepMoves(s, step, c);
    StepKeepsConnUnharmed(s, step, c);
    MovesAreHealthy(s, step, c);
    MoveKeepsSound(s.client, ClientMove(s, step), s'.client, c);
    MoveKeepsSound(s.conns[c].server, ServerMove(s, step, c), s'.conns[c].server, 0);
  }

  lemma NewHandleIsSound(w: W.State, h: nat)
    requires h < |w.handles| && w.slot == Some(h) && w.handles[h] == W.NEW_HANDLE
    requires forall t :: t in w.tasks ==> w.tasks[t].h != h
    ensures Sound(w, h)
  {
  }

  lemma NewConnUnharmed(s: State, step: Step)
    requires WritersOk(s) && Enabled(s, step) && |s.conns| < |Apply(s, step).conns|
    ensures Shape(Apply(s, step)) && Unharmed(Apply(s, step), |s.conns|)
  {
    StepKeepsShape(s, step);
    assert forall t :: t in s.client.tasks ==> s.client.tasks[t].h < |s.client.handles|;
    NewHandleIsSound(Apply(s, step).client, |s.conns|);
    NewHandleIsSound(NEW_SERVER, 0);
  }

  // ---------------------------------------------------------------- runs

  predicate HarmlessRun(s: State, run: seq<Step>, c: nat)
    requires Feasible(s, run)
    decreases |run|
  {
    run == [] || (Harmless(s, run[0], c) && HarmlessRun(Apply(s, run[0]), run[1..], c))
  }

  ghost predicate Cared(s: State, c: nat) {
    Shape(s) && (c < |s.conns| ==> WayOk(s, c, Up) && WayOk(s, c, Down) && Unharmed(s, c))
  }

  lemma StepKeepsCared(s: State, step: Step, c: nat)
    requires Inv(s) && Cared(s, c) && Enabled(s, step) && Harmless(s, step, c)
    requires Proper(s, step, c, Up) && Proper(s, step, c, Down)
    ensures Cared(Apply(s, step), c)
  {
    StepKeepsWayKept(s, step, c, Up);
    StepKeepsWayKept(s, step, c, Down);
    StepKeepsShape(s, step);
    if c < |s.conns| {
      StepKeepsUnharmed(s, step, c);
    } else if c < |Apply(s, step).conns| {
      NewConnUnharmed(s, step);
    }
  }

  lemma {:induction false} RunKeepsCared(s: State, run: seq<Step>, c: nat)
    requires Inv(s) && Cared(s, c) && Feasible(s, run) && HarmlessRun(s, run, c)
    requires ProperRun(s, run, c, Up) && ProperRun(s, run, c, Down)
    ensures Inv(After(s, run)) && Cared(After(s, run), c)
    decreases |run|
  {
    if run == [] {
    } else {
      StepKeepsCared(s, run[0], c);
      StepKeepsInv(s, run[0]);
      RunKeepsCared(Apply(s, run[0]), run[1..], c);
    }
  }

  /** Connection `c` has lost nothing: in each direction what reached the tun device is what was sent, in order and up
      to some point; no packet was thrown away for its direction; once a reader has stopped, and in particular when
      the client's task is done, it has returned everything that was ever accepted; and a writer that has left the
      slot is being, or has been, shut down properly. */
  ghost predicate NothingLost(s: State, c: nat)
    requires Shape(s) && c < |s.conns|
  {
    var conn, x, y := s.conns[c], s.client.handles[c], s.conns[c].server.handles[0];
    && conn.up.tun <= OnWire(x) && conn.down.tun <= OnWire(y)
    && conn.up.discarded == conn.down.discarded == 0
    && (!conn.up.end.Running? ==> conn.up.tun == x.accepted)
    && (!conn.down.end.Running? ==> conn.down.tun == y.accepted)
    && (conn.task.Done? ==> W.EndShows(y) && conn.down.tun == y.accepted)
    && Tended(s.client, c) && Tended(conn.server, 0)
  }

  lemma RotationLosesNothing(flags: Flags, run: seq<Step>, c: nat)
    requires Feasible(Start(flags), run) && HarmlessRun(Start(flags), run, c)
    requires ProperRun(Start(flags), run, c, Up) && ProperRun(Start(flags), run, c, Down)
    requires c < |After(Start(flags), run).conns|
    ensures Shape(After(Start(flags), run)) && NothingLost(After(Start(flags), run), c)
  {
    StartOk(flags);
    RunKeepsCared(Start(flags), run, c);
  }
}
