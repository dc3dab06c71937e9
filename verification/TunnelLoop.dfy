/** The rotation loop's own invariants: how many tasks live at once, what `previous_connection` holds, and whose handle
    the writer slot may hold. */
module TunnelLoop {
  import opened Wire
  import opened PacketStream
  import opened Delivery
  import opened Endpoints
  import opened Tunnel
  import opened TunnelSafety
  import W = Writer

  /** `c` is the connection the loop is serving, and its task has been spawned and not joined. */
  predicate Current(loop: Loop, c: nat) {
    match loop
    case Awaiting(d, _) => c == d
    case Serving(d) => c == d
    case Served(d, expired) => c == d && expired
    case Retired(d, expired) => c == d && expired
    case _ => false
  }

  ghost predicate TasksOk(s: State) {
    && Shape(s)
    && (!s.loop.Connecting? ==> s.loop.c == |s.conns| - 1)
    && (s.previous.Some? && !s.loop.Connecting? ==> s.previous.value < s.loop.c)
    && (s.loop.Retired? ==> s.previous.None?)
    && (forall c :: 0 <= c < |s.conns| ==> (s.conns[c].task.Unspawned? <==> s.loop.Installed? && s.loop.c == c))
    && (forall c :: 0 <= c < |s.conns| && Alive(s.conns[c].task) ==> s.previous == Some(c) || Current(s.loop, c))
  }

  predicate MayBeInSlot(task: ClientTask) {
    task.Unspawned? || task.Reading? || task.Ended?
  }

  /** The slot never holds a handle whose task has finished, been killed, or already taken it out. */
  predicate SlotOk(s: State) {
    s.client.slot.Some? ==> s.client.slot.value < |s.conns| && MayBeInSlot(s.conns[s.client.slot.value].task)
  }

  ghost predicate IdsOk(s: State) {
    && (forall t :: t in s.client.tasks ==> t < s.nextTask)
    && (forall c, t :: 0 <= c < |s.conns| && t in s.conns[c].server.tasks ==> t < s.nextTask)
    && (forall c :: 0 <= c < |s.conns| && s.conns[c].task.Closing? ==>
         var t := s.conns[c].task.t;
         t < s.nextTask && (t in s.client.tasks ==> !W.IsSend(s.client.tasks[t]) && s.client.tasks[t].h == c))
  }

  ghost predicate LoopOk(s: State) {
    TasksOk(s) && SlotOk(s) && IdsOk(s)
  }

  /** A task reads until its stream has ended for it; one that is killed may stop anywhere. */
  predicate EndOk(conn: Conn) {
    && (conn.task.Unspawned? || conn.task.Reading? ==> conn.down.end.Running?)
    && (conn.task.Ended? || conn.task.Closing? || conn.task.Done? ==> !conn.down.end.Running?)
  }

  ghost predicate EndsOk(s: State) {
    forall c :: 0 <= c < |s.conns| ==> EndOk(s.conns[c])
  }

  /** A writer step carries every task on as what it was, and starts at most one of the given id. */
  lemma WriterStepTasks(w: W.State, step: W.Step)
    requires W.Enabled(w, step)
    ensures forall t :: t in W.Apply(w, step).tasks && t in w.tasks ==>
              W.IsSend(W.Apply(w, step).tasks[t]) == W.IsSend(w.tasks[t]) && W.Apply(w, step).tasks[t].h == w.tasks[t].h
    ensures forall t :: t in W.Apply(w, step).tasks && t !in w.tasks ==>
              t == step.t && !step.Act?
              && (step.CloseMatching? ==>
                    !W.IsSend(W.Apply(w, step).tasks[t]) && W.Apply(w, step).tasks[t].h == step.handle)
    ensures step.StartSend? || step.Act? ==> W.Apply(w, step).slot == w.slot
    ensures step.CloseMatching? ==> W.Apply(w, step).slot == if w.slot == Some(step.handle) then None else w.slot
    ensures !step.Replace? ==> |W.Apply(w, step).handles| == |w.handles|
  {
  }

  /** A client writer step that neither installs nor takes a handle leaves the loop's view intact. */
  lemma WriterKeepsLoop(s: State, step: W.Step, nextTask: nat)
    requires LoopOk(s) && W.Enabled(s.client, step) && (step.StartSend? || step.Act?)
    requires s.nextTask <= nextTask && (step.StartSend? ==> step.t == s.nextTask < nextTask)
    ensures LoopOk(s.(client := W.Apply(s.client, step), nextTask := nextTask))
  {
    WriterStepTasks(s.client, step);
  }

  lemma ClientWriterKeepsLoop(s: State, step: Step)
    requires LoopOk(s) && Enabled(s, step) && (step.Send? || step.ClientAct?)
    ensures LoopOk(Apply(s, step))
  {
    if step.Send? {
      WriterKeepsLoop(s, W.StartSend(s.nextTask, step.packet), s.nextTask + 1);
    } else {
      WriterKeepsLoop(s, W.Act(step.t, step.action), s.nextTask);
    }
  }

  lemma ConnectKeepsLoop(s: State)
    requires LoopOk(s) && Enabled(s, Connect)
    ensures LoopOk(Apply(s, Connect))
  {
  }

  lemma RetireKeepsLoop(s: State, p: nat)
    requires LoopOk(s) && p < |s.conns| && s.previous == Some(p) && s.loop.Served?
    requires W.SlotOk(s.client)
    ensures var s' := Retire(s, p);
      LoopOk(s') && !Alive(s'.conns[p].task) && s'.loop == s.loop && s'.previous == s.previous
        && |s'.conns| == |s.conns|
      && forall c :: 0 <= c < |s.conns| && c != p ==> s'.conns[c] == s.conns[c]
  {
  }

  lemma RetireStepKeepsLoop(s: State)
    requires LoopOk(s) && Enabled(s, RetirePrevious) && W.SlotOk(s.client)
    ensures LoopOk(Apply(s, RetirePrevious))
  {
    if s.previous.Some? {
      RetireKeepsLoop(s, s.previous.value);
    }
  }

  lemma LoopStepKeepsLoop(s: State, step: Step)
    requires LoopOk(s) && Enabled(s, step)
    requires step.SpawnReader? || step.ShutdownAwaited? || step.TtlExpired? || step.TaskJoined? || step.Rotate?
    ensures LoopOk(Apply(s, step))
  {
  }

  lemma ClientDoneKeepsLoop(s: State, c: nat)
    requires LoopOk(s) && Enabled(s, ClientDone(c))
    ensures LoopOk(Apply(s, ClientDone(c)))
  {
  }

  /** The task of a connection that is alive may go on to close its handle, or finish. */
  lemma ClosingKeepsTasks(s: State, s': State, c: nat)
    requires TasksOk(s) && Shape(s') && c < |s.conns| == |s'.conns|
    requires s'.loop == s.loop && s'.previous == s.previous
    requires s'.conns == s.conns[c := s.conns[c].(task := s'.conns[c].task)]
    requires s.conns[c].task.Ended? && (s'.conns[c].task.Closing? || s'.conns[c].task.Done?)
    ensures TasksOk(s')
  {
  }

  lemma ClosingKeepsIds(s: State, s': State, c: nat, shutdown: bool)
    requires IdsOk(s) && c < |s.conns| == |s'.conns|
    requires s'.conns == s.conns[c := s.conns[c].(task := s'.conns[c].task)] && s'.nextTask == s.nextTask + 1
    requires s'.conns[c].task.Done? || s'.conns[c].task == Closing(s.nextTask)
    requires W.Enabled(s.client, W.CloseMatching(s.nextTask, c, shutdown))
    requires s'.client == W.Apply(s.client, W.CloseMatching(s.nextTask, c, shutdown))
    ensures IdsOk(s')
  {
    WriterStepTasks(s.client, W.CloseMatching(s.nextTask, c, shutdown));
  }

  lemma ClientCloseKeepsLoop(s: State, c: nat)
    requires LoopOk(s) && Enabled(s, ClientClose(c))
    ensures LoopOk(Apply(s, ClientClose(c)))
  {
    var s' := Apply(s, ClientClose(c));
    WriterStepTasks(s.client, W.CloseMatching(s.nextTask, c, s.conns[c].task.graceful));
    ClosingKeepsTasks(s, s', c);
    ClosingKeepsIds(s, s', c, s.conns[c].task.graceful);
  }

  lemma OrphanStepKeepsLoop(s: State, step: Step)
    requires LoopOk(s) && Enabled(s, step) && (step.Abandon? || step.OrphanMove?)
    ensures LoopOk(Apply(s, step))
  {
  }

  /** A step on one connection leaves its client task alone or ends its reading, and uses up at most the next task
      id. */
  lemma ConnStepTasks(s: State, step: Step)
    requires Shape(s) && Enabled(s, step) && OnOneConn(step)
    ensures var s' := Apply(s, step);
      && step.c < |s.conns| == |s'.conns| && s.nextTask <= s'.nextTask
      && (s'.conns[step.c].task == s.conns[step.c].task
        || (s.conns[step.c].task.Reading? && s'.conns[step.c].task.Ended?))
      && (forall t :: t in s'.conns[step.c].server.tasks && t !in s.conns[step.c].server.tasks ==>
                        t == s.nextTask < s'.nextTask)
  {
  }

  lemma ConnReplacedKeepsLoop(s: State, s': State, c: nat)
    requires LoopOk(s) && Shape(s') && c < |s.conns| == |s'.conns|
    requires s'.client == s.client && s'.loop == s.loop && s'.previous == s.previous && s.nextTask <= s'.nextTask
    requires s'.conns == s.conns[c := s'.conns[c]]
    requires s'.conns[c].task == s.conns[c].task || (s.conns[c].task.Reading? && s'.conns[c].task.Ended?)
    requires forall t ::
               t in s'.conns[c].server.tasks && t !in s.conns[c].server.tasks ==> t == s.nextTask < s'.nextTask
    ensures LoopOk(s')
  {
  }

  lemma ConnStepKeepsLoop(s: State, step: Step)
    requires LoopOk(s) && Enabled(s, step) && OnOneConn(step)
    ensures LoopOk(Apply(s, step))
  {
    ConnStepFrame(s, step);
    ConnStepTasks(s, step);
    ConnReplacedKeepsLoop(s, Apply(s, step), step.c);
  }

  lemma StepKeepsLoop(s: State, step: Step)
    requires LoopOk(s) && Enabled(s, step) && W.SlotOk(s.client)
    ensures LoopOk(Apply(s, step))
  {
    if OnOneConn(step) {
      ConnStepKeepsLoop(s, step);
    } else if step.Send? || step.ClientAct? {
      ClientWriterKeepsLoop(s, step);
    } else if step.Connect? {
      ConnectKeepsLoop(s);
    } else if step.RetirePrevious? {
      RetireStepKeepsLoop(s);
    } else if step.ClientClose? {
      ClientCloseKeepsLoop(s, step.c);
    } else if step.Abandon? || step.OrphanMove? {
      OrphanStepKeepsLoop(s, step);
    } else if step.ClientDone? {
      ClientDoneKeepsLoop(s, step.c);
    } else {
      LoopStepKeepsLoop(s, step);
    }
  }

  // ---------------------------------------------------------------- runs

  lemma ConnStepKeepsEnd(s: State, step: Step)
    requires Shape(s) && Enabled(s, step) && OnOneConn(step)
    requires step.c < |s.conns| == |Apply(s, step).conns| && EndOk(s.conns[step.c])
    ensures EndOk(Apply(s, step).conns[step.c])
  {
  }

  lemma LoopStepKeepsEnds(s: State, step: Step)
    requires LoopOk(s) && EndsOk(s) && Enabled(s, step) && !OnOneConn(step)
    ensures EndsOk(Apply(s, step))
  {
  }

  lemma StepKeepsEnds(s: State, step: Step)
    requires LoopOk(s) && EndsOk(s) && Enabled(s, step)
    ensures EndsOk(Apply(s, step))
  {
    if OnOneConn(step) {
      ConnStepFrame(s, step);
      ConnStepKeepsEnd(s, step);
    } else {
      LoopStepKeepsEnds(s, step);
    }
  }

  /** Holds in every reachable state, whatever packets are sent. */
  ghost predicate Inv(s: State) {
    WritersOk(s) && LoopOk(s) && EndsOk(s)
  }

  predicate Feasible(s: State, run: seq<Step>)
    decreases |run|
  {
    run == [] || (Shape(s) && Enabled(s, run[0]) && Feasible(Apply(s, run[0]), run[1..]))
  }

  function After(s: State, run: seq<Step>): State
    requires Feasible(s, run)
    decreases |run|
  {
    if run == [] then s else After(Apply(s, run[0]), run[1..])
  }

  lemma StepKeepsInv(s: State, step: Step)
    requires Inv(s) && Enabled(s, step)
    ensures Inv(Apply(s, step))
  {
    StepKeepsWriters(s, step);
    StepKeepsLoop(s, step);
    StepKeepsEnds(s, step);
  }

  lemma {:induction false} RunKeepsInv(s: State, run: seq<Step>)
    requires Inv(s) && Feasible(s, run)
    ensures Inv(After(s, run))
    decreases |run|
  {
    if run == [] {
    } else {
      StepKeepsInv(s, run[0]);
      RunKeepsInv(Apply(s, run[0]), run[1..]);
    }
  }

  /** Only well-formed packets are sent on connection `c` in one direction, from its beginning on. */
  predicate ProperRun(s: State, run: seq<Step>, c: nat, way: Way)
    requires Feasible(s, run)
    decreases |run|
  {
    run == [] || (Proper(s, run[0], c, way) && ProperRun(Apply(s, run[0]), run[1..], c, way))
  }

  /** `WayOk` from when the connection is there. */
  ghost predicate WayKept(s: State, c: nat, way: Way) {
    Shape(s) && (c < |s.conns| ==> WayOk(s, c, way))
  }

  lemma StepKeepsWayKept(s: State, step: Step, c: nat, way: Way)
    requires WritersOk(s) && Enabled(s, step) && Proper(s, step, c, way) && WayKept(s, c, way)
    ensures WayKept(Apply(s, step), c, way)
  {
    StepKeepsShape(s, step);
    if c < |s.conns| {
      StepKeepsWay(s, step, c, way);
    } else if c < |Apply(s, step).conns| {
      NewWayOk(s, step, way);
    }
  }

  lemma {:induction false} RunKeepsWay(s: State, run: seq<Step>, c: nat, way: Way)
    requires Inv(s) && Feasible(s, run) && ProperRun(s, run, c, way) && WayKept(s, c, way)
    ensures WayKept(After(s, run), c, way)
    decreases |run|
  {
    if run == [] {
    } else {
      StepKeepsWayKept(s, run[0], c, way);
      StepKeepsInv(s, run[0]);
      RunKeepsWay(Apply(s, run[0]), run[1..], c, way);
    }
  }

  function AliveTasks(s: State): set<nat> {
    set c | 0 <= c < |s.conns| && Alive(s.conns[c].task)
  }

  lemma {:induction false} Subset<T>(a: set<T>, b: set<T>)
    requires a <= b
    ensures |a| <= |b|
  {
    if a == {} {
    } else {
      var x :| x in a;
      Subset(a - {x}, b - {x});
    }
  }

  lemma AtMostTwoAlive(s: State)
    requires TasksOk(s)
    ensures |AliveTasks(s)| <= 2
  {
    var a: set<nat> := if s.previous.Some? then {s.previous.value} else {};
    var b: set<nat> := if s.loop.Connecting? then {} else {s.loop.c};
    assert AliveTasks(s) <= a + b;
    Subset(AliveTasks(s), a + b);
    assert |a + b| <= |a| + |b|;
  }

  lemma StartOk(flags: Flags)
    ensures Inv(Start(flags))
  {
  }

  /** At most two connection tasks are alive, `previous_connection` is empty whenever the loop is about to overwrite it,
      and the slot's handle is the newest, of a task that has not finished and was not killed. */
  ghost predicate Safe(s: State) {
    && Shape(s) && |AliveTasks(s)| <= 2
    && (s.loop.Retired? ==> s.previous.None?)
    && (s.client.slot.Some? ==>
          s.client.slot.value == |s.conns| - 1 && MayBeInSlot(s.conns[s.client.slot.value].task))
  }

  lemma InvIsSafe(s: State)
    requires Inv(s)
    ensures Safe(s)
  {
    AtMostTwoAlive(s);
    assert W.SlotOk(s.client);
  }

  /** Every reachable state is safe. */
  lemma RotationIsSafe(flags: Flags, run: seq<Step>)
    requires Feasible(Start(flags), run)
    ensures Safe(After(Start(flags), run))
  {
    StartOk(flags);
    RunKeepsInv(Start(flags), run);
    InvIsSafe(After(Start(flags), run));
  }

  lemma WriterSlotStays(w: W.State, step: W.Step, c: nat)
    requires W.Enabled(w, step) && w.slot == Some(c)
    requires !step.Replace? && !step.Close? && (step.CloseMatching? ==> step.handle != c)
    ensures W.Apply(w, step).slot == Some(c)
  {
  }

  /** No step takes a handle out of the slot but the next connection's and the end of its own task: what a stale task,
      a send, a kill or the loop does leaves it there. */
  lemma SlotStays(s: State, step: Step, c: nat)
    requires Shape(s) && Enabled(s, step) && s.client.slot == Some(c)
    requires !step.Connect? && step != ClientClose(c)
    ensures Apply(s, step).client.slot == Some(c)
  {
    ClientMoves(s, step);
    if ClientMove(s, step).Some? {
      WriterSlotStays(s.client, ClientMove(s, step).value, c);
    }
  }

  /** Over every stretch of every run: a stale close never removes a newer handle, so the writer stays connected until
      the newest connection itself ends or is replaced. */
  lemma {:induction false} StaleCloseKeepsNewer(s: State, run: seq<Step>, c: nat)
    requires Feasible(s, run) && s.client.slot == Some(c)
    requires forall i :: 0 <= i < |run| ==> !run[i].Connect? && run[i] != ClientClose(c)
    ensures After(s, run).client.slot == Some(c)
    decreases |run|
  {
    if run == [] {
    } else {
      SlotStays(s, run[0], c);
      StaleCloseKeepsNewer(Apply(s, run[0]), run[1..], c);
    }
  }

  /** In every run, whatever is sent elsewhere: a reader that is sent only well-formed packets has never been failed
      by them, but by a socket. */
  lemma ReadersFailBySocketsOnly(flags: Flags, run: seq<Step>, step: Step, c: nat, way: Way)
    requires Feasible(Start(flags), run) && ProperRun(Start(flags), run, c, way)
    requires Shape(After(Start(flags), run)) && Enabled(After(Start(flags), run), step) && Fails(step, c, way)
    ensures step.cause.Socket?
  {
    StartOk(flags);
    RunKeepsInv(Start(flags), run);
    RunKeepsWay(Start(flags), run, c, way);
    FailureIsSocket(After(Start(flags), run), step, c, way);
  }

  // ---------------------------------------------------------------- shutdowns

  /** Shutdown `t` is the one the loop has started and is to wait for, or a client task's own. */
  predicate ShutdownOwned(s: State, t: W.TaskId) {
    || ((s.loop.Installed? || s.loop.Awaiting?) && s.loop.shutdown == Some(t))
    || exists c :: 0 <= c < |s.conns| && s.conns[c].task == Closing(t)
  }

  ghost predicate ShutdownsOwned(s: State) {
    forall t :: t in s.client.tasks && !W.IsSend(s.client.tasks[t]) ==> ShutdownOwned(s, t)
  }

  lemma WriterStepShutdowns(w: W.State, step: W.Step, t: W.TaskId)
    requires W.Enabled(w, step) && t in W.Apply(w, step).tasks && !W.IsSend(W.Apply(w, step).tasks[t])
    ensures (t in w.tasks && !W.IsSend(w.tasks[t]))
            || (t == step.t && ((step.Replace? && w.slot.Some?) || step.Close?
                                || (step.CloseMatching? && step.shutdown && w.slot == Some(step.handle))))
    ensures step.Act? && step.t == t ==> step.action != W.Abort
  {
  }

  /** Ownership changes only with the task's own closing, a kill, and the loop's waiting. */
  lemma OwnedStays(s: State, step: Step, t: W.TaskId)
    requires LoopOk(s) && Enabled(s, step) && ShutdownOwned(s, t) && t in Apply(s, step).client.tasks
    requires t in s.client.tasks && !W.IsSend(s.client.tasks[t])
    ensures ShutdownOwned(Apply(s, step), t)
  {
    var s' := Apply(s, step);
    if c :| 0 <= c < |s.conns| && s.conns[c].task == Closing(t) {
      assert step.RetirePrevious? && s.previous == Some(c) ==> W.Enabled(s.client, W.Act(t, W.Abort));
      if !(step.RetirePrevious? && s.previous == Some(c)) {
        ClosingStays(s, step, c);
        assert s'.conns[c].task == Closing(t);
      }
    }
  }

  lemma ClosingStays(s: State, step: Step, c: nat)
    requires Shape(s) && Enabled(s, step) && c < |s.conns| && s.conns[c].task.Closing?
    requires s.conns[c].task.t in s.client.tasks && !(step.RetirePrevious? && s.previous == Some(c))
    requires step.SpawnReader? ==> s.loop.c != c
    ensures c < |Apply(s, step).conns| && Apply(s, step).conns[c].task == s.conns[c].task
  {
  }

  lemma NewShutdownOwned(s: State, step: Step, t: W.TaskId)
    requires Shape(s) && Enabled(s, step) && t in Apply(s, step).client.tasks
    requires !W.IsSend(Apply(s, step).client.tasks[t]) && (t in s.client.tasks ==> W.IsSend(s.client.tasks[t]))
    ensures ShutdownOwned(Apply(s, step), t)
  {
    ClientMoves(s, step);
    if ClientMove(s, step).Some? {
      WriterStepShutdowns(s.client, ClientMove(s, step).value, t);
      if step.ClientClose? {
        assert Apply(s, step).conns[step.c].task == Closing(t);
      }
    }
  }

  lemma StepKeepsShutdownsOwned(s: State, step: Step)
    requires LoopOk(s) && ShutdownsOwned(s) && Enabled(s, step)
    ensures ShutdownsOwned(Apply(s, step))
  {
    forall t | t in Apply(s, step).client.tasks && !W.IsSend(Apply(s, step).client.tasks[t])
      ensures ShutdownOwned(Apply(s, step), t)
    {
      if t in s.client.tasks && !W.IsSend(s.client.tasks[t]) {
        OwnedStays(s, step, t);
      } else {
        NewShutdownOwned(s, step, t);
      }
    }
  }

  lemma {:induction false} RunKeepsShutdownsOwned(s: State, run: seq<Step>)
    requires Inv(s) && ShutdownsOwned(s) && Feasible(s, run)
    ensures Inv(After(s, run)) && ShutdownsOwned(After(s, run))
    decreases |run|
  {
    if run == [] {
    } else {
      StepKeepsShutdownsOwned(s, run[0]);
      StepKeepsInv(s, run[0]);
      RunKeepsShutdownsOwned(Apply(s, run[0]), run[1..]);
    }
  }

  function Shutdowns(s: State): set<W.TaskId> {
    set t | t in s.client.tasks && !W.IsSend(s.client.tasks[t])
  }

  /** The shutdowns of tasks in `closing`, each of which has one. */
  lemma {:induction false} CountShutdowns(s: State, shutdowns: set<W.TaskId>, closing: set<nat>)
    requires forall t :: t in shutdowns ==> exists c :: c in closing && c < |s.conns| && s.conns[c].task == Closing(t)
    ensures |shutdowns| <= |closing|
    decreases closing
  {
    if c :| c in closing {
      var gone := if c < |s.conns| && s.conns[c].task.Closing? then {s.conns[c].task.t} else {};
      forall t | t in shutdowns - gone
        ensures exists d :: d in closing - {c} && d < |s.conns| && s.conns[d].task == Closing(t)
      {
        var d :| d in closing && d < |s.conns| && s.conns[d].task == Closing(t);
        assert d in closing - {c};
      }
      CountShutdowns(s, shutdowns - gone, closing - {c});
      assert |shutdowns| <= |shutdowns - gone| + |gone|;
    } else {
      assert shutdowns == {};
    }
  }

  lemma ShutdownsOfLiveTasks(s: State)
    requires TasksOk(s) && ShutdownsOwned(s) && !s.loop.Installed? && !s.loop.Awaiting?
    ensures forall t :: t in Shutdowns(s) ==> exists c :: c in AliveTasks(s) && s.conns[c].task == Closing(t)
  {
    forall t | t in Shutdowns(s)
      ensures exists c :: c in AliveTasks(s) && s.conns[c].task == Closing(t)
    {
      assert ShutdownOwned(s, t);
      var c :| 0 <= c < |s.conns| && s.conns[c].task == Closing(t);
      assert c in AliveTasks(s);
    }
  }

  /** In every reachable state in which the loop is not bringing a connection up, the shutdown it has started for the
      connection before is over: every shutdown in progress is that of a live task, and there are at most two. */
  lemma ShutdownsAreAwaited(flags: Flags, run: seq<Step>)
    requires Feasible(Start(flags), run)
    ensures var s := After(Start(flags), run);
      !s.loop.Installed? && !s.loop.Awaiting? ==>
        && (forall t :: t in Shutdowns(s) ==> exists c :: c in AliveTasks(s) && s.conns[c].task == Closing(t))
        && |Shutdowns(s)| <= 2
  {
    StartOk(flags);
    RunKeepsShutdownsOwned(Start(flags), run);
    var s := After(Start(flags), run);
    AtMostTwoAlive(s);
    if !s.loop.Installed? && !s.loop.Awaiting? {
      ShutdownsOfLiveTasks(s);
      CountShutdowns(s, Shutdowns(s), AliveTasks(s));
    }
  }
}
