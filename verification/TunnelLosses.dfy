/** What is lost when a client's reader does not come to the clean end of its stream: exactly the packets it has not
    forwarded. And that packets are lost indeed when a task is killed, a socket fails, or an attempt is given up. */
module TunnelLosses {
  import opened Wire
  import opened PacketStream
  import opened Delivery
  import opened Endpoints
  import opened Tunnel
  import opened TunnelSafety
  import opened TunnelLoop
  import W = Writer

  // ---------------------------------------------------------------- for all runs

  /** The client's task has read for the last time: it ended, or was killed. */
  predicate Stopped(conn: Conn) {
    !conn.task.Unspawned? && !conn.task.Reading?
  }

  lemma StepKeepsStopped(s: State, step: Step, c: nat)
    requires LoopOk(s) && Enabled(s, step) && c < |s.conns| && Stopped(s.conns[c])
    ensures c < |Apply(s, step).conns| && Stopped(Apply(s, step).conns[c])
    ensures Apply(s, step).conns[c].down == s.conns[c].down
    ensures s.conns[c].task.Aborted? ==> Apply(s, step).conns[c].task.Aborted?
  {
  }

  lemma {:induction false} RunKeepsStopped(s: State, run: seq<Step>, c: nat)
    requires Inv(s) && Feasible(s, run) && c < |s.conns| && Stopped(s.conns[c])
    ensures c < |After(s, run).conns| && Stopped(After(s, run).conns[c])
    ensures After(s, run).conns[c].down == s.conns[c].down
    ensures s.conns[c].task.Aborted? ==> After(s, run).conns[c].task.Aborted?
    decreases |run|
  {
    if run == [] {
    } else {
      StepKeepsStopped(s, run[0], c);
      StepKeepsInv(s, run[0]);
      RunKeepsStopped(Apply(s, run[0]), run[1..], c);
    }
  }

  /** What a server has written stays written. */
  lemma {:induction false} RunGrowsWire(s: State, run: seq<Step>, c: nat)
    requires Inv(s) && Feasible(s, run) && c < |s.conns|
    ensures Shape(After(s, run)) && c < |After(s, run).conns|
    ensures OnWire(s.conns[c].server.handles[0]) <= OnWire(After(s, run).conns[c].server.handles[0])
    decreases |run|
  {
    if run == [] {
    } else {
      StepGrowsWire(s, run[0], c);
      StepKeepsInv(s, run[0]);
      RunGrowsWire(Apply(s, run[0]), run[1..], c);
    }
  }

  lemma StepGrowsWire(s: State, step: Step, c: nat)
    requires WritersOk(s) && Enabled(s, step) && c < |s.conns|
    ensures c < |Apply(s, step).conns| && |Apply(s, step).conns[c].server.handles| == 1
    ensures OnWire(s.conns[c].server.handles[0]) <= OnWire(Apply(s, step).conns[c].server.handles[0])
  {
    StepMoves(s, step, c);
    StepKeepsShape(s, step);
    if ServerMove(s, step, c).Some? {
      OnWireGrows(s.conns[c].server, ServerMove(s, step, c).value, 0);
    }
  }

  /** `t` comes after `s`, where the client's task had stopped: what it had forwarded by then it has forwarded, the
      first packets of those the server ever wrote, in order; the others are lost, and nothing else is. */
  ghost predicate LostOnlyUnread(s: State, t: State, c: nat)
    requires Shape(s) && c < |s.conns|
  {
    && Shape(t) && c < |t.conns| && Stopped(t.conns[c])
    && t.conns[c].down.tun == s.conns[c].down.tun
    && t.conns[c].down.tun <= OnWire(s.conns[c].server.handles[0]) <= OnWire(t.conns[c].server.handles[0])
  }

  /** From when a client's task has stopped, however the run goes on and whatever is sent on any connection. */
  lemma LossIsWhatWasUnread(flags: Flags, run: seq<Step>, more: seq<Step>, c: nat)
    requires Feasible(Start(flags), run) && ProperRun(Start(flags), run, c, Down)
    requires Feasible(After(Start(flags), run), more)
    requires c < |After(Start(flags), run).conns| && Stopped(After(Start(flags), run).conns[c])
    ensures Shape(After(Start(flags), run))
    ensures LostOnlyUnread(After(Start(flags), run), After(After(Start(flags), run), more), c)
  {
    StartOk(flags);
    RunKeepsInv(Start(flags), run);
    RunKeepsWay(Start(flags), run, c, Down);
    var s := After(Start(flags), run);
    RunKeepsStopped(s, more, c);
    RunGrowsWire(s, more, c);
  }

  // ---------------------------------------------------------------- a state that a fault-free run reaches

  /** No socket fails, in reading or in writing, and no task is killed. An attempt to connect may be given up. */
  predicate FaultFree(s: State, step: Step)
    requires Shape(s)
  {
    match step
    case ClientAct(_, action) => !action.Fail?
    case ServerAct(_, _, action) => !action.Fail?
    case ClientFail(_, _) => false
    case ServerFail(_, _) => false
    case OrphanMove(_, move) => move.Act? ==> !move.action.Fail?
    case RetirePrevious => s.previous.Some? ==> s.conns[s.previous.value].task.Done?
    case _ => true
  }

  predicate FaultFreeRun(s: State, run: seq<Step>)
    requires Feasible(s, run)
    decreases |run|
  {
    run == [] || (FaultFree(s, run[0]) && FaultFreeRun(Apply(s, run[0]), run[1..]))
  }

  ghost predicate Path(flags: Flags, run: seq<Step>, s: State) {
    Feasible(Start(flags), run) && FaultFreeRun(Start(flags), run) && After(Start(flags), run) == s
  }

  /** A run without faults and kills leads to `s`. */
  ghost predicate Reaches(flags: Flags, s: State) {
    exists run :: Path(flags, run, s)
  }

  lemma {:induction false} RunAndStep(s: State, run: seq<Step>, step: Step)
    requires Feasible(s, run) && FaultFreeRun(s, run)
    requires Shape(After(s, run)) && Enabled(After(s, run), step) && FaultFree(After(s, run), step)
    ensures Feasible(s, run + [step]) && FaultFreeRun(s, run + [step])
    ensures After(s, run + [step]) == Apply(After(s, run), step)
    decreases |run|
  {
    if run == [] {
      assert run + [step] == [step];
      assert [step][1..] == [];
    } else {
      RunAndStep(Apply(s, run[0]), run[1..], step);
      assert (run + [step])[1..] == run[1..] + [step];
    }
  }

  lemma ReachesNext(flags: Flags, s: State, step: Step, s': State)
    requires Reaches(flags, s)
    requires Shape(s) && Enabled(s, step) && FaultFree(s, step) && Apply(s, step) == s'
    ensures Reaches(flags, s')
  {
    var run :| Path(flags, run, s);
    RunAndStep(Start(flags), run, step);
    assert Path(flags, run + [step], s');
  }

  const BOTH := Flags(true, true)

  /** A server's writer while task `t` sends one packet. */
  function Sending(t: W.TaskId, x: W.Handle, task: Option<W.Task>, sent: nat): W.State {
    var stats := W.Stats(1, sent, 0, 0, if sent == 0 then {} else {(0, 0)});
    W.State(Some(0), [x], if task.Some? then map[t := task.value] else map[], stats, false)
  }

  function Locking(t: W.TaskId, packet: Bytes): W.State {
    Sending(t, W.NEW_HANDLE, Some(W.SendLock(0, packet)), 0)
  }

  function Writing(t: W.TaskId, packet: Bytes, written: nat): W.State
    requires written <= |packet|
  {
    Sending(
      t, W.Handle(Some(t), true, packet[..written], false, 0, [], W.PartOf(packet, written)),
      Some(W.SendWrite(0, packet, written)), 0)
  }

  function Taken(packet: Bytes): W.Handle {
    W.Handle(None, true, packet, false, 0, [packet], W.Nothing)
  }

  function Counting(t: W.TaskId, packet: Bytes): W.State {
    Sending(t, Taken(packet), Some(W.SendCount(0, 0)), 0)
  }

  function Sent(packet: Bytes): W.State {
    Sending(0, Taken(packet), None, 1)
  }

  lemma ServerLocks(t: W.TaskId, packet: Bytes)
    requires packet != []
    ensures W.Enabled(NEW_SERVER, W.StartSend(t, packet))
      && W.Apply(NEW_SERVER, W.StartSend(t, packet)) == Locking(t, packet)
    ensures W.Enabled(Locking(t, packet), W.Act(t, W.Lock))
    ensures W.Apply(Locking(t, packet), W.Act(t, W.Lock)) == Writing(t, packet, 0)
  {
    var w := Locking(t, packet);
    assert packet[..0] == [];
    assert W.Apply(NEW_SERVER, W.StartSend(t, packet)).tasks == w.tasks;
    assert W.Apply(w, W.Act(t, W.Lock)).tasks == Writing(t, packet, 0).tasks;
    assert W.Apply(w, W.Act(t, W.Lock)).handles == Writing(t, packet, 0).handles;
  }

  lemma ServerWrites(t: W.TaskId, packet: Bytes)
    requires packet != []
    ensures W.Enabled(Writing(t, packet, 0), W.Act(t, W.Write(|packet|)))
    ensures W.Apply(Writing(t, packet, 0), W.Act(t, W.Write(|packet|))) == Writing(t, packet, |packet|)
  {
    var w' := W.Apply(Writing(t, packet, 0), W.Act(t, W.Write(|packet|)));
    assert packet[..0] + packet[0..|packet|] == packet[..|packet|];
    assert w'.tasks == Writing(t, packet, |packet|).tasks;
    assert w'.handles == Writing(t, packet, |packet|).handles;
  }

  lemma ServerAccepts(t: W.TaskId, packet: Bytes)
    requires packet != []
    ensures W.Enabled(Writing(t, packet, |packet|), W.Act(t, W.Finish))
    ensures W.Apply(Writing(t, packet, |packet|), W.Act(t, W.Finish)) == Counting(t, packet)
  {
    var w' := W.Apply(Writing(t, packet, |packet|), W.Act(t, W.Finish));
    var none: seq<Bytes> := [];
    assert packet[..|packet|] == packet && none + [packet] == [packet];
    assert w'.tasks == Counting(t, packet).tasks;
    assert w'.handles == Counting(t, packet).handles;
  }

  lemma ServerCounts(t: W.TaskId, packet: Bytes)
    ensures W.Enabled(Counting(t, packet), W.Act(t, W.Finish))
    ensures W.Apply(Counting(t, packet), W.Act(t, W.Finish)) == Sent(packet)
  {
    var w' := W.Apply(Counting(t, packet), W.Act(t, W.Finish));
    assert w'.tasks == Sent(packet).tasks;
    var none: set<(nat, nat)> := {};
    assert none + {(0, 0)} == {(0, 0)};
    assert w'.handles == Sent(packet).handles;
  }

  /** A client with one connection. */
  function First(server: W.State, task: ClientTask, loop: Loop, previous: Option<nat>, nextTask: nat): State {
    State(BOTH, NEW_SERVER, [Conn(server, task, FRESH_PIPE, FRESH_PIPE)], loop, previous, nextTask, [])
  }

  lemma ReachesServing()
    ensures Reaches(BOTH, First(NEW_SERVER, Reading, Serving(0), None, 1))
  {
    assert Path(BOTH, [], Start(BOTH));
    ReachesNext(BOTH, Start(BOTH), Connect, First(NEW_SERVER, Unspawned, Installed(0, None), None, 1));
    ReachesNext(
      BOTH, First(NEW_SERVER, Unspawned, Installed(0, None), None, 1), SpawnReader,
      First(NEW_SERVER, Reading, Awaiting(0, None), None, 1));
    ReachesNext(
      BOTH, First(NEW_SERVER, Reading, Awaiting(0, None), None, 1), ShutdownAwaited,
      First(NEW_SERVER, Reading, Serving(0), None, 1));
  }

  function Served1(server: W.State): State {
    First(server, Reading, Serving(0), None, 2)
  }

  lemma ServerStepReached(server: W.State, action: W.Action, server': W.State)
    requires Reaches(BOTH, Served1(server)) && |server.handles| == 1
    requires !action.Abort? && !action.Fail? && W.Enabled(server, W.Act(1, action))
    requires W.Apply(server, W.Act(1, action)) == server'
    ensures Reaches(BOTH, Served1(server'))
  {
    ReachesNext(BOTH, Served1(server), ServerAct(0, 1, action), Served1(server'));
  }

  lemma ReachesWriting(packet: Bytes)
    requires packet != []
    ensures Reaches(BOTH, Served1(Writing(1, packet, 0)))
  {
    ReachesServing();
    ServerLocks(1, packet);
    ReachesNext(
      BOTH, First(NEW_SERVER, Reading, Serving(0), None, 1), ServerSend(0, packet), Served1(Locking(1, packet)));
    ServerStepReached(Locking(1, packet), W.Lock, Writing(1, packet, 0));
  }

  /** The server has sent a packet and counted it; the client has not read it. */
  lemma ReachesSent(packet: Bytes)
    requires packet != []
    ensures Reaches(BOTH, Served1(Sent(packet)))
  {
    ReachesWriting(packet);
    ServerWrites(1, packet);
    ServerAccepts(1, packet);
    ServerCounts(1, packet);
    ServerStepReached(Writing(1, packet, 0), W.Write(|packet|), Writing(1, packet, |packet|));
    ServerStepReached(Writing(1, packet, |packet|), W.Finish, Counting(1, packet));
    ServerStepReached(Counting(1, packet), W.Finish, Sent(packet));
  }

  /** The client's writer with two connections, the first being shut down by task 2. */
  function Two(first: W.Handle, task: Option<W.Task>): W.State {
    W.State(
      Some(1), [first, W.NEW_HANDLE], if task.Some? then map[2 := task.value] else map[], W.EMPTY.stats, false)
  }

  const SHUTTING := W.NEW_HANDLE.(locked := Some(2), open := false)
  const SHUT := W.NEW_HANDLE.(open := false, closed := true)

  function Second(
    client: W.State, server: W.State, task0: ClientTask, task1: ClientTask, loop: Loop, previous: Option<nat>): State
  {
    State(
      BOTH, client,
      [Conn(server, task0, FRESH_PIPE, FRESH_PIPE), Conn(NEW_SERVER, task1, FRESH_PIPE, FRESH_PIPE)], loop,
      previous, 3, [])
  }

  lemma ReachesConnecting(server: W.State)
    requires Reaches(BOTH, Served1(server)) && |server.handles| == 1
    ensures Reaches(BOTH, First(server, Reading, Connecting, Some(0), 2))
  {
    var a := First(server, Reading, Served(0, true), None, 2);
    ReachesNext(BOTH, Served1(server), TtlExpired, a);
    var b := First(server, Reading, Retired(0, true), None, 2);
    ReachesNext(BOTH, a, RetirePrevious, b);
    ReachesNext(BOTH, b, Rotate, First(server, Reading, Connecting, Some(0), 2));
  }

  lemma ReachesSecond(server: W.State)
    requires Reaches(BOTH, Served1(server)) && |server.handles| == 1
    ensures var client := Two(W.NEW_HANDLE, Some(W.ShutLock(0, None)));
      Reaches(BOTH, Second(client, server, Reading, Unspawned, Installed(1, Some(2)), Some(0)))
  {
    ReachesConnecting(server);
    ReachesNext(
      BOTH, First(server, Reading, Connecting, Some(0), 2), Connect,
      Second(Two(W.NEW_HANDLE, Some(W.ShutLock(0, None))), server, Reading, Unspawned, Installed(1, Some(2)), Some(0)));
  }

  lemma OldHandleShuts()
    ensures var w := Two(W.NEW_HANDLE, Some(W.ShutLock(0, None)));
      W.Enabled(w, W.Act(2, W.Lock)) && W.Apply(w, W.Act(2, W.Lock)) == Two(SHUTTING, Some(W.ShutClose(0)))
    ensures var w := Two(SHUTTING, Some(W.ShutClose(0)));
      W.Enabled(w, W.Act(2, W.Finish)) && W.Apply(w, W.Act(2, W.Finish)) == Two(SHUT, None)
  {
  }

  lemma ReachesShut(server: W.State)
    requires Reaches(BOTH, Served1(server)) && |server.handles| == 1
    ensures Reaches(BOTH, Second(Two(SHUT, None), server, Reading, Unspawned, Installed(1, Some(2)), Some(0)))
  {
    ReachesSecond(server);
    OldHandleShuts();
    var w0, w1 := Two(W.NEW_HANDLE, Some(W.ShutLock(0, None))), Two(SHUTTING, Some(W.ShutClose(0)));
    var a := Second(w1, server, Reading, Unspawned, Installed(1, Some(2)), Some(0));
    ReachesNext(
      BOTH, Second(w0, server, Reading, Unspawned, Installed(1, Some(2)), Some(0)), ClientAct(2, W.Lock), a);
    ReachesNext(
      BOTH, a, ClientAct(2, W.Finish),
      Second(Two(SHUT, None), server, Reading, Unspawned, Installed(1, Some(2)), Some(0)));
  }

  /** The client's second connection is due for replacement, and its first one still reading. */
  lemma ReachesExpired(server: W.State)
    requires Reaches(BOTH, Served1(server)) && |server.handles| == 1
    ensures Reaches(BOTH, Second(Two(SHUT, None), server, Reading, Reading, Served(1, true), Some(0)))
  {
    ReachesShut(server);
    var a := Second(Two(SHUT, None), server, Reading, Reading, Awaiting(1, Some(2)), Some(0));
    ReachesNext(
      BOTH, Second(Two(SHUT, None), server, Reading, Unspawned, Installed(1, Some(2)), Some(0)), SpawnReader, a);
    var b := Second(Two(SHUT, None), server, Reading, Reading, Serving(1), Some(0));
    ReachesNext(BOTH, a, ShutdownAwaited, b);
    ReachesNext(BOTH, b, TtlExpired, Second(Two(SHUT, None), server, Reading, Reading, Served(1, true), Some(0)));
  }

  // ---------------------------------------------------------------- losses

  /** In `s`, the server of connection 0 has counted `packet` as sent, and however the run goes on the client never
      forwards it. */
  ghost predicate LosesForGood(s: State, packet: Bytes) {
    && Shape(s) && 0 < |s.conns|
    && s.conns[0].server.stats.sent == 1 && s.conns[0].server.handles[0].accepted == [packet]
    && forall more: seq<Step> | Feasible(s, more) ::
         0 < |After(s, more).conns| && After(s, more).conns[0].down.tun == []
  }

  lemma StoppedLosesForGood(s: State, packet: Bytes)
    requires Inv(s) && 0 < |s.conns| && Stopped(s.conns[0]) && s.conns[0].down.tun == []
    requires s.conns[0].server.stats.sent == 1 && s.conns[0].server.handles[0].accepted == [packet]
    ensures LosesForGood(s, packet)
  {
    forall more: seq<Step> | Feasible(s, more)
      ensures 0 < |After(s, more).conns| && After(s, more).conns[0].down.tun == []
    {
      RunKeepsStopped(s, more, 0);
    }
  }

  lemma ReachesInv(flags: Flags, s: State)
    requires Reaches(flags, s)
    ensures Inv(s)
  {
    var run :| Path(flags, run, s);
    StartOk(flags);
    RunKeepsInv(Start(flags), run);
  }

  /** Killing loses packets: any packet can have been sent on a connection whose task the loop kills, after a run
      without any fault, before it has been read. */
  lemma KillLosesPackets(packet: Bytes)
    requires packet != []
    ensures exists s :: Reaches(BOTH, s) && Shape(s) && Enabled(s, RetirePrevious)
                        && LosesForGood(Apply(s, RetirePrevious), packet)
  {
    var s := Second(Two(SHUT, None), Sent(packet), Reading, Reading, Served(1, true), Some(0));
    ReachesSent(packet);
    ReachesExpired(Sent(packet));
    ReachesInv(BOTH, s);
    StepKeepsInv(s, RetirePrevious);
    StoppedLosesForGood(Apply(s, RetirePrevious), packet);
  }

  /** So does a socket that fails the client's reader. */
  lemma SocketFaultLosesPackets(packet: Bytes)
    requires packet != []
    ensures exists s :: Reaches(BOTH, s) && Shape(s) && Enabled(s, ClientFail(0, Socket))
                        && LosesForGood(Apply(s, ClientFail(0, Socket)), packet)
  {
    var s := Served1(Sent(packet));
    ReachesSent(packet);
    ReachesInv(BOTH, s);
    StepKeepsInv(s, ClientFail(0, Socket));
    StoppedLosesForGood(Apply(s, ClientFail(0, Socket)), packet);
  }

  /** A client that has given up its only attempt after the server's answer. */
  function Abandoned(orphan: W.State, nextTask: nat): State {
    Start(BOTH).(nextTask := nextTask, orphans := [orphan])
  }

  lemma OrphanStepReached(w: W.State, move: W.Step, w': W.State, nextTask: nat)
    requires Reaches(BOTH, Abandoned(w, nextTask)) && OrphanCan(Abandoned(w, nextTask), w, move)
      && W.Apply(w, move) == w'
    requires move.Act? ==> !move.action.Fail?
    ensures Reaches(BOTH, Abandoned(w', nextTask + 1))
  {
    ReachesNext(BOTH, Abandoned(w, nextTask), OrphanMove(0, move), Abandoned(w', nextTask + 1));
  }

  lemma ReachesOrphanWriting(packet: Bytes)
    requires packet != []
    ensures Reaches(BOTH, Abandoned(Writing(0, packet, 0), 2))
  {
    assert Path(BOTH, [], Start(BOTH));
    ReachesNext(BOTH, Start(BOTH), Abandon, Abandoned(NEW_SERVER, 0));
    ServerLocks(0, packet);
    OrphanStepReached(NEW_SERVER, W.StartSend(0, packet), Locking(0, packet), 0);
    OrphanStepReached(Locking(0, packet), W.Act(0, W.Lock), Writing(0, packet, 0), 1);
  }

  lemma ReachesOrphanSent(packet: Bytes)
    requires packet != []
    ensures Reaches(BOTH, Abandoned(Sent(packet), 5))
  {
    ReachesOrphanWriting(packet);
    ServerWrites(0, packet);
    ServerAccepts(0, packet);
    ServerCounts(0, packet);
    OrphanStepReached(Writing(0, packet, 0), W.Act(0, W.Write(|packet|)), Writing(0, packet, |packet|), 2);
    OrphanStepReached(Writing(0, packet, |packet|), W.Act(0, W.Finish), Counting(0, packet), 3);
    OrphanStepReached(Counting(0, packet), W.Act(0, W.Finish), Sent(packet), 4);
  }

  // ---------------------------------------------------------------- attempts given up

  /** What the first orphan's server has written. */
  function OrphanWrote(s: State): seq<Bytes> {
    if s.orphans != [] && |s.orphans[0].handles| == 1 then OnWire(s.orphans[0].handles[0]) else []
  }

  lemma StepKeepsOrphanWrote(s: State, step: Step)
    requires WritersOk(s) && Enabled(s, step) && s.orphans != []
    ensures Apply(s, step).orphans != [] && OrphanWrote(s) <= OrphanWrote(Apply(s, step))
  {
    OrphansAfter(s, step);
    StepKeepsOrphans(s, step);
    assert OrphanOk(s.orphans[0]);
    if step.OrphanMove? && step.i == 0 {
      OnWireGrows(s.orphans[0], step.move, 0);
    }
  }

  lemma {:induction false} RunKeepsOrphanWrote(s: State, run: seq<Step>)
    requires Inv(s) && Feasible(s, run) && s.orphans != []
    ensures After(s, run).orphans != [] && OrphanWrote(s) <= OrphanWrote(After(s, run))
    decreases |run|
  {
    if run == [] {
    } else {
      StepKeepsOrphanWrote(s, run[0]);
      StepKeepsInv(s, run[0]);
      RunKeepsOrphanWrote(Apply(s, run[0]), run[1..]);
    }
  }

  /** Later: the orphan's packet is still written, and where only well-formed packets are sent, what the client has
      forwarded is what the connection's own server wrote. */
  ghost predicate StillUnread(s: State, packet: Bytes, more: seq<Step>)
    requires Feasible(s, more)
  {
    var t := After(s, more);
    && Shape(t) && [packet] <= OrphanWrote(t)
    && (forall c: nat | c < |t.conns| && ProperRun(s, more, c, Down) ::
          t.conns[c].down.tun <= OnWire(t.conns[c].server.handles[0]))
  }

  lemma OrphanIsNeverRead(s: State, packet: Bytes, more: seq<Step>)
    requires Inv(s) && s.conns == [] && s.orphans != [] && [packet] <= OrphanWrote(s)
    requires Feasible(s, more)
    ensures StillUnread(s, packet, more)
  {
    var t := After(s, more);
    RunKeepsInv(s, more);
    RunKeepsOrphanWrote(s, more);
    forall c: nat | c < |t.conns| && ProperRun(s, more, c, Down)
      ensures t.conns[c].down.tun <= OnWire(t.conns[c].server.handles[0])
    {
      RunKeepsWay(s, more, c, Down);
    }
  }

  /** So does an attempt that is given up after the server's answer, without any fault: any packet can be counted as
      sent by a server whose client never gets to read it. However the run goes on, what the client forwards on a
      connection is what that connection's own server wrote. */
  lemma AbandonedAttemptLosesPackets(packet: Bytes)
    requires packet != []
    ensures exists s :: Reaches(BOTH, s) && s.conns == [] && |s.orphans| == 1 && s.orphans[0].stats.sent == 1
                        && forall more: seq<Step> | Feasible(s, more) :: StillUnread(s, packet, more)
  {
    ReachesOrphanSent(packet);
    var s := Abandoned(Sent(packet), 5);
    ReachesInv(BOTH, s);
    forall more: seq<Step> | Feasible(s, more)
      ensures StillUnread(s, packet, more)
    {
      OrphanIsNeverRead(s, packet, more);
    }
    assert Reaches(BOTH, s) && s.orphans == [Sent(packet)];
  }
}
