/** `PacketWriter` of src/transport/http/common.rs as a step system: the slot, its connection handles with their
    async mutexes, and every send and shutdown that may be in progress at once. One step is what runs between two
    points where another task can interleave. */
module Writer {
  import opened Wire
  import opened PacketStream

  type TaskId = nat

  /** What a socket carries after its last completely written packet. */
  datatype Tail =
    | Nothing
    | PartOf(packet: Bytes, written: nat)
    | FarewellPart(payload: Bytes, written: nat)

  function TailBytes(tail: Tail): Bytes {
    match tail
    case Nothing => []
    case PartOf(p, n) => p[..Min(n, |p|)]
    case FarewellPart(p, n) => p[..Min(n, |p|)]
  }

  /** `locked`: the owner of the async mutex. `open`: `error_sender` has not been taken. `bytes`: what the socket took.
      `closed`: `socket.shutdown()` returned Ok. `errors`: messages sent to the reader. `accepted` and `tail` are
      history: the packets whose `write_all` returned Ok in lock order, and what follows them. */
  datatype Handle = Handle(
    locked: Option<TaskId>, open: bool, bytes: Bytes, closed: bool, errors: nat,
    accepted: seq<Bytes>, tail: Tail)

  const NEW_HANDLE := Handle(None, true, [], false, 0, [], Nothing)

  datatype Task =
    | SendLock(h: nat, packet: Bytes)
    | SendWrite(h: nat, packet: Bytes, written: nat)
    | SendCount(h: nat, index: nat)
    | ShutLock(h: nat, farewell: Option<Bytes>)
    | ShutWrite(h: nat, payload: Bytes, written: nat)
    | ShutClose(h: nat)

  predicate IsSend(task: Task) {
    task.SendLock? || task.SendWrite? || task.SendCount?
  }

  predicate Holds(task: Task) {
    task.SendWrite? || task.ShutWrite? || task.ShutClose?
  }

  /** `returned`: the positions (handle, index in its `accepted`) of the sends that returned Ok.
      `refused`: sends that found their handle shut down, which count neither as sent nor as dropped. */
  datatype Stats = Stats(started: nat, sent: nat, dropped: nat, refused: nat, returned: set<(nat, nat)>)

  datatype State = State(
    slot: Option<nat>, handles: seq<Handle>, tasks: map<TaskId, Task>, stats: Stats, panicked: bool)

  const EMPTY := State(None, [], map[], Stats(0, 0, 0, 0, {}), false)

  /** What a task in progress does next. `Finish` completes a write, a count or a socket shutdown; `Fail` is an I/O
      error; `Abort` drops a shutdown whose enclosing task is killed. */
  datatype Action = Lock | Write(n: nat) | Finish | Fail | Abort

  datatype Step =
    | StartSend(t: TaskId, packet: Bytes)
    | Replace(t: TaskId)
    | CloseMatching(t: TaskId, handle: nat, shutdown: bool)
    | Close(t: TaskId, farewell: Option<Bytes>)
    | Act(t: TaskId, action: Action)

  /** The data a task is writing. */
  function Pending(task: Task): Bytes {
    match task
    case SendWrite(_, p, _) => p
    case ShutWrite(_, p, _) => p
    case _ => []
  }

  function Written(task: Task): nat {
    match task
    case SendWrite(_, _, n) => n
    case ShutWrite(_, _, n) => n
    case _ => 0
  }

  predicate CanAct(task: Task, x: Handle, action: Action) {
    match action
    case Lock => (task.SendLock? || task.ShutLock?) && x.locked.None?
    case Write(n) => (task.SendWrite? || task.ShutWrite?) && 0 < n && Written(task) + n <= |Pending(task)|
    case Finish => task.SendCount? || (Holds(task) && Written(task) == |Pending(task)|)
    case Fail => task.ShutClose? || (Holds(task) && Written(task) < |Pending(task)|)
    case Abort => !IsSend(task)
  }

  /** The handle after the action. */
  function HandleAfter(t: TaskId, task: Task, x: Handle, action: Action): Handle
    requires CanAct(task, x, action)
  {
    match action
    case Lock =>
      if !x.open then x
      else if task.SendLock? then x.(locked := Some(t), tail := PartOf(task.packet, 0))
      else
        var tail := if task.farewell.Some? then FarewellPart(task.farewell.value, 0) else x.tail;
        x.(locked := Some(t), open := false, tail := tail)
    case Write(n) =>
      var w := Written(task);
      var tail := if task.SendWrite? then PartOf(task.packet, w + n) else FarewellPart(task.payload, w + n);
      x.(bytes := x.bytes + Pending(task)[w..w + n], tail := tail)
    case Finish =>
      if task.SendWrite? then x.(locked := None, accepted := x.accepted + [task.packet], tail := Nothing)
      else if task.ShutClose? then x.(locked := None, closed := true)
      else x
    case Fail => x.(locked := None, open := false, errors := x.errors + 1)
    case Abort => if Holds(task) then x.(locked := None) else x
  }

  /** How the task continues; None when it ends. */
  function TaskAfter(task: Task, x: Handle, action: Action): Option<Task>
    requires CanAct(task, x, action)
  {
    match action
    case Lock =>
      if !x.open then None
      else if task.SendLock? then Some(SendWrite(task.h, task.packet, 0))
      else if task.farewell.Some? then Some(ShutWrite(task.h, task.farewell.value, 0))
      else Some(ShutClose(task.h))
    case Write(n) => Some(task.(written := Written(task) + n))
    case Finish =>
      if task.SendWrite? then Some(SendCount(task.h, |x.accepted|))
      else if task.ShutWrite? then Some(ShutClose(task.h))
      else None
    case _ => None
  }

  predicate Enabled(s: State, step: Step) {
    match step
    case Act(t, action) =>
      t in s.tasks && s.tasks[t].h < |s.handles| && CanAct(s.tasks[t], s.handles[s.tasks[t].h], action)
    case CloseMatching(t, handle, _) => t !in s.tasks && handle < |s.handles|
    case _ => step.t !in s.tasks
  }

  /** The counters after a task's action. */
  function Count(stats: Stats, task: Task, x: Handle, action: Action): Stats {
    if task.SendLock? && action.Lock? && !x.open then stats.(refused := stats.refused + 1)
    else if task.SendWrite? && action.Fail? then stats.(dropped := stats.dropped + 1)
    else if task.SendCount? && action.Finish? then
      stats.(sent := stats.sent + 1, returned := stats.returned + {(task.h, task.index)})
    else stats
  }

  /** A failed write takes `error_sender` with `unwrap`, which panics if it is gone. */
  predicate Panics(task: Task, x: Handle, action: Action) {
    task.SendWrite? && action.Fail? && !x.open
  }

  function SetTask(tasks: map<TaskId, Task>, t: TaskId, task: Option<Task>): map<TaskId, Task> {
    if task.Some? then tasks[t := task.value] else tasks - {t}
  }

  /** The shutdown task for a handle that has just been taken from the slot. */
  function Spawn(s: State, t: TaskId, h: nat, farewell: Option<Bytes>): State {
    s.(tasks := s.tasks[t := ShutLock(h, farewell)])
  }

  function Apply(s: State, step: Step): State
    requires Enabled(s, step)
  {
    match step
    case StartSend(t, packet) =>
      var stats := s.stats.(started := s.stats.started + 1);
      if s.slot.None? then s.(stats := stats.(dropped := stats.dropped + 1))
      else s.(stats := stats, tasks := s.tasks[t := SendLock(s.slot.value, packet)])
    case Replace(t) =>
      var next := s.(slot := Some(|s.handles|), handles := s.handles + [NEW_HANDLE]);
      if s.slot.None? then next else Spawn(next, t, s.slot.value, None)
    case CloseMatching(t, handle, shutdown) =>
      if s.slot != Some(handle) then s
      else if shutdown then Spawn(s.(slot := None), t, handle, None)
      else s.(slot := None)
    case Close(t, farewell) =>
      if s.slot.None? || farewell.None? then s.(slot := None)
      else Spawn(s.(slot := None), t, s.slot.value, farewell)
    case Act(t, action) =>
      var task := s.tasks[t];
      var x := s.handles[task.h];
      State(
        s.slot, s.handles[task.h := HandleAfter(t, task, x, action)], SetTask(s.tasks, t, TaskAfter(task, x, action)),
        Count(s.stats, task, x, action), s.panicked || Panics(task, x, action))
  }

  predicate Feasible(s: State, run: seq<Step>)
    decreases |run|
  {
    run == [] || (Enabled(s, run[0]) && Feasible(Apply(s, run[0]), run[1..]))
  }

  function After(s: State, run: seq<Step>): State
    requires Feasible(s, run)
    decreases |run|
  {
    if run == [] then s else After(Apply(s, run[0]), run[1..])
  }

  // ---------------------------------------------------------------- the invariant

  predicate WholeTail(tail: Tail) {
    tail.Nothing? || (tail.FarewellPart? && tail.written == |tail.payload|)
  }

  /** A shutdown has come to closing the socket: the peer may see the end of the stream from now on, while the call is
      pending or after it has returned, failed or been killed. */
  predicate EndShows(x: Handle) {
    !x.open && WholeTail(x.tail)
  }

  predicate HandleOk(x: Handle) {
    && x.bytes == Flatten(x.accepted) + TailBytes(x.tail)
    && (x.tail.PartOf? ==> x.tail.written <= |x.tail.packet| && !x.closed)
    && (x.tail.FarewellPart? ==> x.tail.written <= |x.tail.payload| && !x.open)
    && (x.open ==> !x.closed && x.errors == 0)
    && (x.open && x.locked.None? ==> x.tail.Nothing?)
    && (!x.open && x.tail.PartOf? ==> x.tail.written < |x.tail.packet|)
    && (x.closed ==> WholeTail(x.tail))
    && x.errors <= 1
  }

  /** What a task in progress knows of its handle. */
  predicate TaskOk(t: TaskId, task: Task, x: Handle) {
    && (Holds(task) ==> x.locked == Some(t) && !x.closed && x.errors == 0)
    && match task
       case SendWrite(_, p, n) => x.open && x.tail == PartOf(p, n) && n <= |p|
       case SendCount(_, i) => i < |x.accepted|
       case ShutWrite(_, p, n) => !x.open && x.tail == FarewellPart(p, n) && n <= |p|
       case ShutClose(_) => !x.open && WholeTail(x.tail)
       case _ => true
  }

  /** The mutex of a handle is owned by a task that is working on it. */
  predicate LockOk(s: State, h: nat)
    requires h < |s.handles|
  {
    s.handles[h].locked.Some? ==>
      var t := s.handles[h].locked.value;
      t in s.tasks && Holds(s.tasks[t]) && s.tasks[t].h == h
  }

  ghost predicate HandlesOk(s: State) {
    forall h :: 0 <= h < |s.handles| ==> HandleOk(s.handles[h]) && LockOk(s, h)
  }

  ghost predicate TasksOk(s: State) {
    forall t :: t in s.tasks ==> s.tasks[t].h < |s.handles| && TaskOk(t, s.tasks[t], s.handles[s.tasks[t].h])
  }

  /** The slot holds the newest handle, and nobody has begun to shut that one down. */
  ghost predicate SlotOk(s: State) {
    s.slot.Some? ==>
      && s.slot.value == |s.handles| - 1
      && !s.handles[s.slot.value].closed && !s.handles[s.slot.value].tail.FarewellPart?
      && forall t :: t in s.tasks && !IsSend(s.tasks[t]) ==> s.tasks[t].h != s.slot.value
  }

  ghost predicate Inv(s: State) {
    HandlesOk(s) && TasksOk(s) && SlotOk(s) && !s.panicked
  }

  /** The mutex after an action of `t` is still another task's, or `t`'s with work left to do, or free. */
  predicate LockKept(t: TaskId, x: Handle, x': Handle, next: Option<Task>) {
    x'.locked.Some? ==>
      || (x'.locked == x.locked && x.locked != Some(t))
      || (x'.locked == Some(t) && next.Some? && Holds(next.value))
  }

  lemma WriteKeepsHandle(t: TaskId, task: Task, x: Handle, n: nat)
    requires HandleOk(x) && TaskOk(t, task, x) && CanAct(task, x, Write(n))
    ensures HandleOk(HandleAfter(t, task, x, Write(n)))
  {
    var p, w := Pending(task), Written(task);
    assert p[..w] + p[w..w + n] == p[..w + n];
    ConcatAssoc(Flatten(x.accepted), p[..w], p[w..w + n]);
  }

  /** One action keeps its own handle consistent. */
  lemma ActionKeepsHandle(t: TaskId, task: Task, x: Handle, action: Action)
    requires HandleOk(x) && TaskOk(t, task, x) && CanAct(task, x, action)
    ensures HandleOk(HandleAfter(t, task, x, action))
  {
    match action
    case Write(n) => WriteKeepsHandle(t, task, x, n);
    case Finish =>
      if task.SendWrite? {
        FlattenSnoc(x.accepted, task.packet);
      }
    case _ =>
  }

  /** And its own task. */
  lemma ActionKeepsTask(t: TaskId, task: Task, x: Handle, action: Action)
    requires HandleOk(x) && TaskOk(t, task, x) && CanAct(task, x, action)
    requires x.locked == Some(t) ==> Holds(task)
    ensures var x', next := HandleAfter(t, task, x, action), TaskAfter(task, x, action);
      && LockKept(t, x, x', next)
      && (next.Some? ==> next.value.h == task.h && TaskOk(t, next.value, x') && IsSend(next.value) == IsSend(task))
  {
  }

  /** It disturbs no other task, and no send shuts a handle down. */
  lemma ActionKeepsOthers(t: TaskId, task: Task, x: Handle, action: Action)
    requires HandleOk(x) && TaskOk(t, task, x) && CanAct(task, x, action)
    requires x.locked == Some(t) ==> Holds(task)
    ensures var x' := HandleAfter(t, task, x, action);
      && (IsSend(task) && !x.closed && !x.tail.FarewellPart? ==> !x'.closed && !x'.tail.FarewellPart?)
      && forall u, other: Task :: u != t && TaskOk(u, other, x) ==> TaskOk(u, other, x')
  {
  }

  /** Replacing one handle and its task keeps the invariant if the pair is consistent and no other task is disturbed. */
  lemma Frame(s: State, s': State, t: TaskId, h: nat, x': Handle, next: Option<Task>)
    requires Inv(s) && t in s.tasks && s.tasks[t].h == h
    requires h < |s.handles|
    requires s'.handles == s.handles[h := x'] && s'.tasks == SetTask(s.tasks, t, next)
    requires s'.slot == s.slot && !s'.panicked
    requires HandleOk(x') && LockKept(t, s.handles[h], x', next)
    requires next.Some? ==> next.value.h == h && TaskOk(t, next.value, x') && IsSend(next.value) == IsSend(s.tasks[t])
    requires IsSend(s.tasks[t]) && !s.handles[h].closed && !s.handles[h].tail.FarewellPart?
             ==> !x'.closed && !x'.tail.FarewellPart?
    requires forall u, other: Task :: u != t && TaskOk(u, other, s.handles[h]) ==> TaskOk(u, other, x')
    ensures Inv(s')
  {
    forall i | 0 <= i < |s'.handles|
      ensures HandleOk(s'.handles[i]) && LockOk(s', i)
    {
      assert HandleOk(s.handles[i]) && LockOk(s, i);
    }
    forall u | u in s'.tasks
      ensures s'.tasks[u].h < |s'.handles| && TaskOk(u, s'.tasks[u], s'.handles[s'.tasks[u].h])
    {
      if u != t {
        assert TaskOk(u, s.tasks[u], s.handles[s.tasks[u].h]);
      }
    }
    assert SlotOk(s);
  }

  lemma ActKeepsInv(s: State, t: TaskId, action: Action)
    requires Inv(s) && Enabled(s, Act(t, action))
    ensures Inv(Apply(s, Act(t, action)))
  {
    var task := s.tasks[t];
    var x := s.handles[task.h];
    assert HandleOk(x) && LockOk(s, task.h) && TaskOk(t, task, x);
    ActionKeepsHandle(t, task, x, action);
    ActionKeepsTask(t, task, x, action);
    ActionKeepsOthers(t, task, x, action);
    Frame(s, Apply(s, Act(t, action)), t, task.h, HandleAfter(t, task, x, action), TaskAfter(task, x, action));
  }

  /** A task that only waits for the mutex can be added at any time; a shutdown only for a handle out of the slot. */
  lemma SpawnKeepsInv(s: State, t: TaskId, task: Task)
    requires Inv(s) && t !in s.tasks && task.h < |s.handles|
    requires task.SendLock? || (task.ShutLock? && s.slot != Some(task.h))
    ensures Inv(s.(tasks := s.tasks[t := task]))
  {
    var s' := s.(tasks := s.tasks[t := task]);
    forall i | 0 <= i < |s'.handles|
      ensures HandleOk(s'.handles[i]) && LockOk(s', i)
    {
      assert HandleOk(s.handles[i]) && LockOk(s, i);
    }
  }

  lemma InstallKeepsInv(s: State)
    requires Inv(s)
    ensures Inv(s.(slot := Some(|s.handles|), handles := s.handles + [NEW_HANDLE]))
  {
    var s' := s.(slot := Some(|s.handles|), handles := s.handles + [NEW_HANDLE]);
    forall i | 0 <= i < |s'.handles|
      ensures HandleOk(s'.handles[i]) && LockOk(s', i)
    {
      if i < |s.handles| {
        assert HandleOk(s.handles[i]) && LockOk(s, i);
      }
    }
  }

  lemma StatsKeepInv(s: State, stats: Stats)
    requires Inv(s)
    ensures Inv(s.(stats := stats))
  {
    forall i | 0 <= i < |s.handles|
      ensures LockOk(s.(stats := stats), i)
    {
      assert LockOk(s, i);
    }
  }

  lemma TakeKeepsInv(s: State)
    requires Inv(s)
    ensures Inv(s.(slot := None))
  {
    forall i | 0 <= i < |s.handles|
      ensures LockOk(s.(slot := None), i)
    {
      assert LockOk(s, i);
    }
  }

  lemma SlotStepKeepsInv(s: State, step: Step)
    requires Inv(s) && Enabled(s, step) && !step.Act?
    ensures Inv(Apply(s, step))
  {
    match step
    case StartSend(t, packet) =>
      StatsKeepInv(s, Apply(s, step).stats);
      if s.slot.Some? {
        SpawnKeepsInv(s.(stats := Apply(s, step).stats), t, SendLock(s.slot.value, packet));
      }
    case Replace(t) =>
      InstallKeepsInv(s);
      if s.slot.Some? {
        SpawnKeepsInv(s.(slot := Some(|s.handles|), handles := s.handles + [NEW_HANDLE]), t,
          ShutLock(s.slot.value, None));
      }
    case CloseMatching(t, handle, shutdown) =>
      TakeKeepsInv(s);
      if s.slot == Some(handle) && shutdown {
        SpawnKeepsInv(s.(slot := None), t, ShutLock(handle, None));
      }
    case Close(t, farewell) =>
      TakeKeepsInv(s);
      if s.slot.Some? && farewell.Some? {
        SpawnKeepsInv(s.(slot := None), t, ShutLock(s.slot.value, farewell));
      }
  }

  lemma StepKeepsInv(s: State, step: Step)
    requires Inv(s) && Enabled(s, step)
    ensures Inv(Apply(s, step))
  {
    if step.Act? {
      ActKeepsInv(s, step.t, step.action);
    } else {
      SlotStepKeepsInv(s, step);
    }
  }

  lemma {:induction false} RunKeepsInv(s: State, run: seq<Step>)
    requires Inv(s) && Feasible(s, run)
    ensures Inv(After(s, run))
    decreases |run|
  {
    if run == [] {
    } else {
      StepKeepsInv(s, run[0]);
      RunKeepsInv(Apply(s, run[0]), run[1..]);
    }
  }
}
