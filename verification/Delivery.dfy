/** What the writer's invariant means for its callers and for the reader at the other end of a socket. */
module Delivery {
  import opened Wire
  import opened PacketStream
  import opened Writer

  // ---------------------------------------------------------------- the life of one handle

  /** Bytes and accepted packets are only ever appended, a taken error sender stays taken, and a handle that is
      neither open nor held by anyone is frozen. */
  predicate Grows(x: Handle, y: Handle) {
    && x.bytes <= y.bytes && x.accepted <= y.accepted
    && (y.open ==> x.open) && (x.closed ==> y.closed) && x.errors <= y.errors
    && (!x.open && x.locked.None? ==> y == x)
    && (EndShows(x) ==> y.bytes == x.bytes && y.accepted == x.accepted && y.tail == x.tail)
  }

  /** A step that is no task's own: it may install a handle, start a task, and touches no other task and no old
      handle. */
  lemma SlotStepFrame(s: State, step: Step)
    requires Enabled(s, step) && !step.Act?
    ensures var s' := Apply(s, step);
      && s'.stats.sent == s.stats.sent && s'.stats.returned == s.stats.returned
      && (s'.handles == s.handles || s'.handles == s.handles + [NEW_HANDLE])
      && step.t !in s.tasks
      && (s'.tasks == s.tasks
          || (step.t in s'.tasks && !s'.tasks[step.t].SendCount? && s'.tasks == s.tasks[step.t := s'.tasks[step.t]]))
  {
  }

  lemma ActionGrows(t: TaskId, task: Task, x: Handle, action: Action)
    requires TaskOk(t, task, x) && CanAct(task, x, action)
    ensures Grows(x, HandleAfter(t, task, x, action))
  {
  }

  lemma StepGrows(s: State, step: Step, h: nat)
    requires Inv(s) && Enabled(s, step) && h < |s.handles|
    ensures h < |Apply(s, step).handles| && Grows(s.handles[h], Apply(s, step).handles[h])
  {
    if step.Act? {
      var task := s.tasks[step.t];
      assert TaskOk(step.t, task, s.handles[task.h]);
      ActionGrows(step.t, task, s.handles[task.h], step.action);
    } else {
      SlotStepFrame(s, step);
    }
  }

  /** Over every run: no byte follows a failed write or a shutdown that let go of the mutex, no error is reported
      twice, and what was accepted stays accepted. */
  lemma {:induction false} HandleGrows(s: State, run: seq<Step>, h: nat)
    requires Inv(s) && Feasible(s, run) && h < |s.handles|
    ensures h < |After(s, run).handles| && Grows(s.handles[h], After(s, run).handles[h])
    ensures After(s, run).handles[h].errors <= 1
    decreases |run|
  {
    RunKeepsInv(s, run);
    if run == [] {
    } else {
      StepGrows(s, run[0], h);
      StepKeepsInv(s, run[0]);
      HandleGrows(Apply(s, run[0]), run[1..], h);
    }
  }

  /** A write has failed on the handle, or a shutdown has come to closing its socket, or is over. */
  predicate Sealed(s: State, h: nat)
    requires h < |s.handles|
  {
    var x := s.handles[h];
    !x.open && (x.locked.Some? ==> x.locked.value in s.tasks && s.tasks[x.locked.value].ShutClose?)
  }

  lemma ActionKeepsSealed(t: TaskId, task: Task, x: Handle, action: Action)
    requires TaskOk(t, task, x) && CanAct(task, x, action) && !x.open
    requires x.locked == Some(t) ==> task.ShutClose?
    ensures var x' := HandleAfter(t, task, x, action);
      !x'.open && x'.bytes == x.bytes && (x'.locked.Some? ==> x'.locked == x.locked != Some(t))
  {
  }

  lemma StepKeepsSealed(s: State, step: Step, h: nat)
    requires TasksOk(s) && HandlesOk(s) && Enabled(s, step) && h < |s.handles| && Sealed(s, h)
    ensures h < |Apply(s, step).handles| && Sealed(Apply(s, step), h)
    ensures Apply(s, step).handles[h].bytes == s.handles[h].bytes
  {
    if !step.Act? {
      SlotStepFrame(s, step);
    } else {
      var task := s.tasks[step.t];
      assert LockOk(s, h) && TaskOk(step.t, task, s.handles[task.h]);
      if task.h == h {
        ActionKeepsSealed(step.t, task, s.handles[h], step.action);
      }
    }
  }

  lemma {:induction false} SealedStays(s: State, run: seq<Step>, h: nat)
    requires Inv(s) && Feasible(s, run) && h < |s.handles| && Sealed(s, h)
    ensures h < |After(s, run).handles| && After(s, run).handles[h].bytes == s.handles[h].bytes
    decreases |run|
  {
    if run == [] {
    } else {
      StepKeepsSealed(s, run[0], h);
      StepKeepsInv(s, run[0]);
      SealedStays(Apply(s, run[0]), run[1..], h);
    }
  }

  /** An action after which nothing may be written: an I/O error in a send or a shutdown, the end of a farewell, a
      shutdown that finds nothing to say, and the closing of the socket. */
  predicate Seals(task: Task, action: Action) {
    action.Fail? || (action.Finish? && (task.ShutWrite? || task.ShutClose?))
    || (action.Lock? && task.ShutLock? && task.farewell.None?)
  }

  lemma FailureOrShutdownSeals(s: State, t: TaskId, action: Action)
    requires Inv(s) && Enabled(s, Act(t, action)) && Seals(s.tasks[t], action)
    ensures Sealed(Apply(s, Act(t, action)), s.tasks[t].h)
  {
    assert TaskOk(t, s.tasks[t], s.handles[s.tasks[t].h]);
  }

  /** In every run: once a write has failed, or a shutdown has come to closing the socket, not a byte follows, however
      the run goes on. */
  lemma SealedForever(run: seq<Step>, t: TaskId, action: Action, more: seq<Step>)
    requires Feasible(EMPTY, run) && Enabled(After(EMPTY, run), Act(t, action))
    requires Seals(After(EMPTY, run).tasks[t], action)
    requires Feasible(Apply(After(EMPTY, run), Act(t, action)), more)
    ensures var s := After(EMPTY, run);
      var h, s' := s.tasks[t].h, Apply(s, Act(t, action));
      h < |s'.handles| && h < |After(s', more).handles| && After(s', more).handles[h].bytes == s'.handles[h].bytes
  {
    RunKeepsInv(EMPTY, run);
    var s := After(EMPTY, run);
    FailureOrShutdownSeals(s, t, action);
    StepKeepsInv(s, Act(t, action));
    SealedStays(Apply(s, Act(t, action)), more, s.tasks[t].h);
  }

  /** Whenever a write can fail, `error_sender` is still there to be taken. */
  lemma UnwrapNeverPanics(run: seq<Step>, t: TaskId)
    requires Feasible(EMPTY, run) && Enabled(After(EMPTY, run), Act(t, Fail))
    ensures var s := After(EMPTY, run);
      !s.panicked && (s.tasks[t].SendWrite? ==> s.handles[s.tasks[t].h].open)
  {
    RunKeepsInv(EMPTY, run);
    var s := After(EMPTY, run);
    assert TaskOk(t, s.tasks[t], s.handles[s.tasks[t].h]);
  }

  // ---------------------------------------------------------------- counters

  ghost predicate Counting(s: State, h: nat, i: nat) {
    exists t :: t in s.tasks && s.tasks[t] == SendCount(h, i)
  }

  /** Every accepted packet belongs to one send, which either has returned Ok and been counted, or is about to. */
  ghost predicate Counted(s: State) {
    && s.stats.sent == |s.stats.returned|
    && (forall p :: p in s.stats.returned ==> p.0 < |s.handles| && p.1 < |s.handles[p.0].accepted|)
    && (forall t :: t in s.tasks && s.tasks[t].SendCount? ==> (s.tasks[t].h, s.tasks[t].index) !in s.stats.returned)
    && (forall t, u :: t in s.tasks && u in s.tasks && t != u && s.tasks[t].SendCount? ==> s.tasks[t] != s.tasks[u])
    && (forall h, i :: 0 <= h < |s.handles| && 0 <= i < |s.handles[h].accepted| ==>
          (h, i) in s.stats.returned || Counting(s, h, i))
  }

  /** A step that neither ends a count nor completes a write: counting tasks and accepted packets stay. */
  lemma OtherStepKeepsCounted(s: State, s': State)
    requires Counted(s)
    requires s'.stats.sent == s.stats.sent && s'.stats.returned == s.stats.returned
    requires |s.handles| <= |s'.handles|
    requires forall h :: 0 <= h < |s'.handles| ==>
               s'.handles[h].accepted == if h < |s.handles| then s.handles[h].accepted else []
    requires forall t :: t in s.tasks && s.tasks[t].SendCount? ==> t in s'.tasks && s'.tasks[t] == s.tasks[t]
    requires forall t :: t in s'.tasks && s'.tasks[t].SendCount? ==> t in s.tasks && s'.tasks[t] == s.tasks[t]
    ensures Counted(s')
  {
    forall h, i | 0 <= h < |s'.handles| && 0 <= i < |s'.handles[h].accepted|
      ensures (h, i) in s'.stats.returned || Counting(s', h, i)
    {
      if (h, i) !in s.stats.returned {
        var t :| t in s.tasks && s.tasks[t] == SendCount(h, i);
        assert t in s'.tasks && s'.tasks[t] == SendCount(h, i);
      }
    }
  }

  lemma FinishedWriteKeepsCounted(s: State, s': State, t: TaskId, h: nat, packet: Bytes)
    requires Counted(s) && t in s.tasks && !s.tasks[t].SendCount? && h < |s.handles|
    requires forall u :: u in s.tasks && s.tasks[u].SendCount? ==>
               s.tasks[u].h < |s.handles| && s.tasks[u].index < |s.handles[s.tasks[u].h].accepted|
    requires s'.stats == s.stats && s'.tasks == s.tasks[t := SendCount(h, |s.handles[h].accepted|)]
    requires |s'.handles| == |s.handles| && s'.handles == s.handles[h := s'.handles[h]]
    requires s'.handles[h].accepted == s.handles[h].accepted + [packet]
    ensures Counted(s')
  {
    forall g, i | 0 <= g < |s'.handles| && 0 <= i < |s'.handles[g].accepted|
      ensures (g, i) in s'.stats.returned || Counting(s', g, i)
    {
      if g == h && i == |s.handles[h].accepted| {
        assert s'.tasks[t] == SendCount(g, i);
      } else if (g, i) !in s.stats.returned {
        assert i < |s.handles[g].accepted|;
        var u :| u in s.tasks && s.tasks[u] == SendCount(g, i);
        assert u in s'.tasks && s'.tasks[u] == SendCount(g, i);
      }
    }
  }

  lemma FinishedCountKeepsCounted(s: State, s': State, t: TaskId)
    requires Counted(s) && t in s.tasks && s.tasks[t].SendCount?
    requires s.tasks[t].h < |s.handles| && s.tasks[t].index < |s.handles[s.tasks[t].h].accepted|
    requires s'.tasks == s.tasks - {t} && s'.handles == s.handles
    requires s'.stats.sent == s.stats.sent + 1
    requires s'.stats.returned == s.stats.returned + {(s.tasks[t].h, s.tasks[t].index)}
    ensures Counted(s')
  {
    forall h, i | 0 <= h < |s'.handles| && 0 <= i < |s'.handles[h].accepted|
      ensures (h, i) in s'.stats.returned || Counting(s', h, i)
    {
      if (h, i) !in s'.stats.returned {
        var u :| u in s.tasks && s.tasks[u] == SendCount(h, i);
        assert u in s'.tasks && s'.tasks[u] == SendCount(h, i);
      }
    }
  }

  lemma ActKeepsCounted(s: State, t: TaskId, action: Action)
    requires TasksOk(s) && Counted(s) && Enabled(s, Act(t, action))
    ensures Counted(Apply(s, Act(t, action)))
  {
    var s', task := Apply(s, Act(t, action)), s.tasks[t];
    assert forall u :: u in s.tasks ==> s.tasks[u].h < |s.handles| && TaskOk(u, s.tasks[u], s.handles[s.tasks[u].h]);
    if action.Finish? && task.SendCount? {
      assert s'.handles == s.handles;
      FinishedCountKeepsCounted(s, s', t);
    } else if action.Finish? && task.SendWrite? {
      FinishedWriteKeepsCounted(s, s', t, task.h, task.packet);
    } else {
      assert HandleAfter(t, task, s.handles[task.h], action).accepted == s.handles[task.h].accepted;
      OtherStepKeepsCounted(s, s');
    }
  }

  lemma StepKeepsCounted(s: State, step: Step)
    requires TasksOk(s) && Counted(s) && Enabled(s, step)
    ensures Counted(Apply(s, step))
  {
    if step.Act? {
      ActKeepsCounted(s, step.t, step.action);
    } else {
      SlotStepFrame(s, step);
      OtherStepKeepsCounted(s, Apply(s, step));
    }
  }

  /** The number of sends that returned Ok is the sent counter, and once nothing is in progress they are exactly the
      accepted packets of all connections. */
  lemma {:induction false} SentCountsAccepted(s: State, run: seq<Step>)
    requires Inv(s) && Counted(s) && Feasible(s, run)
    ensures Counted(After(s, run))
    decreases |run|
  {
    if run == [] {
    } else {
      StepKeepsCounted(s, run[0]);
      StepKeepsInv(s, run[0]);
      SentCountsAccepted(Apply(s, run[0]), run[1..]);
    }
  }

  /** The sends in progress. */
  function Sending(tasks: map<TaskId, Task>): set<TaskId> {
    set t | t in tasks && IsSend(tasks[t])
  }

  function Ended(stats: Stats): nat {
    stats.sent + stats.dropped + stats.refused
  }

  /** A send ends in exactly one way: counted as sent, counted as dropped, or refused by a handle already shut down. */
  predicate Conserved(s: State) {
    s.stats.started == Ended(s.stats) + |Sending(s.tasks)|
  }

  lemma CountOnEnd(stats: Stats, t: TaskId, task: Task, x: Handle, action: Action)
    requires CanAct(task, x, action)
    ensures Count(stats, task, x, action).started == stats.started
    ensures Ended(Count(stats, task, x, action)) ==
            Ended(stats) + if IsSend(task) && TaskAfter(task, x, action).None? then 1 else 0
    ensures TaskAfter(task, x, action).Some? ==> IsSend(TaskAfter(task, x, action).value) == IsSend(task)
  {
  }

  lemma SendingAfter(tasks: map<TaskId, Task>, t: TaskId, next: Option<Task>)
    ensures Sending(SetTask(tasks, t, next)) ==
            if next.Some? && IsSend(next.value) then Sending(tasks) + {t} else Sending(tasks) - {t}
  {
  }

  lemma ActConserves(s: State, t: TaskId, action: Action)
    requires Conserved(s) && Enabled(s, Act(t, action))
    ensures Conserved(Apply(s, Act(t, action)))
  {
    var task := s.tasks[t];
    var x := s.handles[task.h];
    CountOnEnd(s.stats, t, task, x, action);
    SendingAfter(s.tasks, t, TaskAfter(task, x, action));
    assert IsSend(task) <==> t in Sending(s.tasks);
    assert IsSend(task) ==> Sending(s.tasks) + {t} == Sending(s.tasks);
    assert !IsSend(task) ==> Sending(s.tasks) - {t} == Sending(s.tasks);
  }

  lemma SpawnConserves(tasks: map<TaskId, Task>, t: TaskId, task: Task)
    requires t !in tasks
    ensures |Sending(tasks[t := task])| == |Sending(tasks)| + if IsSend(task) then 1 else 0
  {
    SendingAfter(tasks, t, Some(task));
    assert t !in Sending(tasks);
    assert Sending(tasks) - {t} == Sending(tasks);
  }

  lemma StepConserves(s: State, step: Step)
    requires Conserved(s) && Enabled(s, step)
    ensures Conserved(Apply(s, step))
  {
    match step
    case Act(t, action) => ActConserves(s, t, action);
    case StartSend(t, packet) => if s.slot.Some? { SpawnConserves(s.tasks, t, SendLock(s.slot.value, packet)); }
    case Replace(t) => if s.slot.Some? { SpawnConserves(s.tasks, t, ShutLock(s.slot.value, None)); }
    case CloseMatching(t, handle, _) => SpawnConserves(s.tasks, t, ShutLock(handle, None));
    case Close(t, farewell) => if s.slot.Some? { SpawnConserves(s.tasks, t, ShutLock(s.slot.value, farewell)); }
  }

  lemma {:induction false} SendsAreConserved(s: State, run: seq<Step>)
    requires Conserved(s) && Feasible(s, run)
    ensures Conserved(After(s, run))
    decreases |run|
  {
    if run == [] {
    } else {
      StepConserves(s, run[0]);
      SendsAreConserved(Apply(s, run[0]), run[1..]);
    }
  }

  /** The packets accepted on all connections together. */
  function TotalAccepted(handles: seq<Handle>): nat {
    if handles == [] then 0
    else TotalAccepted(handles[..|handles| - 1]) + |handles[|handles| - 1].accepted|
  }

  ghost function Row(h: nat, n: nat): (r: set<(nat, nat)>)
    ensures |r| == n
    ensures forall p :: p in r <==> p.0 == h && p.1 < n
  {
    if n == 0 then {} else Row(h, n - 1) + {(h, n - 1)}
  }

  lemma {:induction false} CountPositions(handles: seq<Handle>, positions: set<(nat, nat)>)
    requires forall p :: p in positions <==> p.0 < |handles| && p.1 < |handles[p.0].accepted|
    ensures |positions| == TotalAccepted(handles)
  {
    if handles == [] {
      assert positions == {};
    } else {
      var n := |handles| - 1;
      var row := Row(n, |handles[n].accepted|);
      CountPositions(handles[..n], positions - row);
      assert positions == (positions - row) + row;
    }
  }

  lemma IdleCountIsTotal(w: State)
    requires Counted(w) && w.tasks == map[]
    ensures w.stats.sent == TotalAccepted(w.handles)
  {
    forall p: (nat, nat) | p.0 < |w.handles| && p.1 < |w.handles[p.0].accepted|
      ensures p in w.stats.returned
    {
      assert !Counting(w, p.0, p.1);
    }
    CountPositions(w.handles, w.stats.returned);
  }

  lemma NothingSendingAtFirst()
    ensures Sending(EMPTY.tasks) == {}
  {
  }

  /** The sent counter is the number of sends that have returned Ok, each of a packet of its own that was accepted;
      every send is in progress or ended in exactly one way; and when nothing is in progress the counter is the number
      of accepted packets. */
  ghost predicate CountersExact(s: State) {
    && s.stats.sent == |s.stats.returned|
    && (forall p :: p in s.stats.returned ==> p.0 < |s.handles| && p.1 < |s.handles[p.0].accepted|)
    && s.stats.started == s.stats.sent + s.stats.dropped + s.stats.refused + |Sending(s.tasks)|
    && (s.tasks == map[] ==> s.stats.sent == TotalAccepted(s.handles))
  }

  lemma CountedIsExact(s: State)
    requires Counted(s) && Conserved(s)
    ensures CountersExact(s)
  {
    if s.tasks == map[] {
      IdleCountIsTotal(s);
    }
  }

  lemma RunKeepsCounters(s: State, run: seq<Step>)
    requires Inv(s) && Counted(s) && Conserved(s) && Feasible(s, run)
    ensures CountersExact(After(s, run))
  {
    SentCountsAccepted(s, run);
    SendsAreConserved(s, run);
    CountedIsExact(After(s, run));
  }

  /** Every reachable state has exact counters. */
  lemma CountersAreExact(run: seq<Step>)
    requires Feasible(EMPTY, run)
    ensures CountersExact(After(EMPTY, run))
  {
    NothingSendingAtFirst();
    RunKeepsCounters(EMPTY, run);
  }

  // ---------------------------------------------------------------- what the reader gets

  predicate HonestTask(task: Task) {
    match task
    case SendLock(_, p) => WellFormed(p)
    case SendWrite(_, p, _) => WellFormed(p)
    case ShutLock(_, Some(g)) => IsGoodbye(g)
    case ShutWrite(_, g, _) => IsGoodbye(g)
    case _ => true
  }

  predicate HonestTail(tail: Tail) {
    match tail
    case Nothing => true
    case PartOf(p, _) => WellFormed(p)
    case FarewellPart(g, _) => IsGoodbye(g)
  }

  ghost predicate HonestHandle(x: Handle) {
    AllWellFormed(x.accepted) && HonestTail(x.tail)
  }

  /** On handle `h`, which may not exist yet, only well-formed packets have been and are being written, and goodbyes. */
  ghost predicate HonestFor(s: State, h: nat) {
    && (h < |s.handles| ==> HonestHandle(s.handles[h]))
    && (forall t :: t in s.tasks && s.tasks[t].h == h ==> HonestTask(s.tasks[t]))
  }

  /** The step begins to write nothing else on it; what happens on other handles does not matter. */
  predicate HonestOn(s: State, step: Step, h: nat) {
    match step
    case StartSend(_, packet) => s.slot == Some(h) ==> WellFormed(packet)
    case Close(_, Some(farewell)) => s.slot == Some(h) ==> IsGoodbye(farewell)
    case _ => true
  }

  lemma ActionKeepsHonest(t: TaskId, task: Task, x: Handle, action: Action)
    requires CanAct(task, x, action) && HonestHandle(x) && HonestTask(task)
    ensures HonestHandle(HandleAfter(t, task, x, action))
    ensures TaskAfter(task, x, action).Some? ==> HonestTask(TaskAfter(task, x, action).value)
    ensures TaskAfter(task, x, action).Some? ==> TaskAfter(task, x, action).value.h == task.h
  {
  }

  lemma StepKeepsHonest(s: State, step: Step, h: nat)
    requires TasksOk(s) && HonestFor(s, h) && Enabled(s, step) && HonestOn(s, step, h)
    ensures HonestFor(Apply(s, step), h)
  {
    if step.Act? {
      var task := s.tasks[step.t];
      if task.h == h {
        ActionKeepsHonest(step.t, task, s.handles[h], step.action);
      } else {
        assert TaskAfter(task, s.handles[task.h], step.action).Some? ==>
                 TaskAfter(task, s.handles[task.h], step.action).value.h == task.h;
      }
    }
  }

  predicate HonestRun(s: State, run: seq<Step>, h: nat)
    requires Feasible(s, run)
    decreases |run|
  {
    run == [] || (HonestOn(s, run[0], h) && HonestRun(Apply(s, run[0]), run[1..], h))
  }

  lemma {:induction false} RunKeepsHonest(s: State, run: seq<Step>, h: nat)
    requires Inv(s) && HonestFor(s, h) && Feasible(s, run) && HonestRun(s, run, h)
    ensures HonestFor(After(s, run), h)
    decreases |run|
  {
    if run == [] {
    } else {
      StepKeepsHonest(s, run[0], h);
      StepKeepsInv(s, run[0]);
      RunKeepsHonest(Apply(s, run[0]), run[1..], h);
    }
  }

  lemma TailHasNoPacket(tail: Tail)
    requires HonestTail(tail)
    requires tail.PartOf? ==> tail.written < |tail.packet|
    requires tail.FarewellPart? ==> tail.written <= |tail.payload|
    ensures Packets(TailBytes(tail)) == []
    ensures WholeTail(tail) ==> Ending(TailBytes(tail), Eof).Finished?
  {
    match tail
    case Nothing =>
    case PartOf(p, n) => NextTruncated(p, n, Fault);
    case FarewellPart(g, n) =>
      NextGoodbye(g, n, Fault);
      NextGoodbye(g, n, Eof);
  }

  /** Reading any delivered part of a handle's stream yields a prefix of its accepted packets; reading it to a clean
      end yields all of them. A packet whose write is still in progress may count as delivered once its last byte is
      out. */
  lemma HandleDelivers(x: Handle, delivered: Bytes, end: End)
    requires HandleOk(x) && HonestHandle(x)
    requires delivered <= x.bytes
    requires end.Eof? ==> EndShows(x) && delivered == x.bytes
    ensures if x.tail.PartOf? && x.tail.written == |x.tail.packet|
      then Packets(delivered) <= x.accepted + [x.tail.packet]
            else Packets(delivered) <= x.accepted
    ensures end.Eof? ==> Packets(delivered) == x.accepted && Ending(delivered, Eof).Finished?
  {
    PacketsMonotone(delivered, x.bytes);
    if x.tail.PartOf? && x.tail.written == |x.tail.packet| {
      var all := x.accepted + [x.tail.packet];
      FlattenSnoc(x.accepted, x.tail.packet);
      assert x.tail.packet[..x.tail.written] == x.tail.packet;
      ReadFlatten(all, [], end);
      assert Flatten(all) + [] == x.bytes;
    } else {
      TailHasNoPacket(x.tail);
      ReadFlatten(x.accepted, TailBytes(x.tail), end);
      assert x.accepted + [] == x.accepted;
    }
  }

  /** A malformed packet spoils only what follows it on its own connection: what has been read, and the well-formed
      packets accepted before it, agree as far as both go. */
  lemma ReaderFollowsAccepted(x: Handle, k: nat, delivered: Bytes)
    requires HandleOk(x) && delivered <= x.bytes
    requires k <= |x.accepted| && AllWellFormed(x.accepted[..k])
    ensures Packets(delivered) <= x.accepted[..k] || x.accepted[..k] <= Packets(delivered)
  {
    var ps := x.accepted + [TailBytes(x.tail)];
    FlattenSnoc(x.accepted, TailBytes(x.tail));
    assert ps[..k] == x.accepted[..k];
    ReaderFollowsWellFormedRun(ps, k, delivered);
  }

  /** The condition is exact: a stream read to a clean end yields all accepted packets only if they are well formed. */
  lemma CleanEndDelivers(x: Handle)
    requires HandleOk(x) && EndShows(x)
    requires x.tail.FarewellPart? ==> IsGoodbye(x.tail.payload)
    ensures Packets(x.bytes) == x.accepted <==> AllWellFormed(x.accepted)
    ensures AllWellFormed(x.accepted) ==> Ending(x.bytes, Eof).Finished?
  {
    PacketsWellFormed(x.bytes);
    if AllWellFormed(x.accepted) {
      HandleDelivers(x, x.bytes, Eof);
    }
  }

  /** For every interleaving of senders, replacements, closes and shutdowns, whatever is sent on any connection, and
      every part of one connection's stream that has been delivered: as far as the packets accepted on that connection
      are well formed, the reader at the other end returns them, in the order the socket's mutex was held; it returns
      no others if all are; and after a clean shutdown it returns them all if and only if all are. */
  lemma ReaderReturnsAccepted(run: seq<Step>, h: nat, delivered: Bytes, end: End)
    requires Feasible(EMPTY, run)
    requires h < |After(EMPTY, run).handles|
    requires delivered <= After(EMPTY, run).handles[h].bytes
    requires end.Eof? ==> EndShows(After(EMPTY, run).handles[h]) && delivered == After(EMPTY, run).handles[h].bytes
    ensures var x := After(EMPTY, run).handles[h];
      && (forall k: nat | k <= |x.accepted| && AllWellFormed(x.accepted[..k]) ::
            Packets(delivered) <= x.accepted[..k] || x.accepted[..k] <= Packets(delivered))
      && (HonestHandle(x)
        ==> Packets(delivered) <= x.accepted + (if x.tail.PartOf? && x.open then [x.tail.packet] else []))
      && (end.Eof? && (x.tail.FarewellPart? ==> IsGoodbye(x.tail.payload)) ==>
            && (Packets(delivered) == x.accepted <==> AllWellFormed(x.accepted))
            && (AllWellFormed(x.accepted) ==> Ending(delivered, Eof).Finished?))
  {
    RunKeepsInv(EMPTY, run);
    var x := After(EMPTY, run).handles[h];
    forall k: nat | k <= |x.accepted| && AllWellFormed(x.accepted[..k])
      ensures Packets(delivered) <= x.accepted[..k] || x.accepted[..k] <= Packets(delivered)
    {
      ReaderFollowsAccepted(x, k, delivered);
    }
    if HonestHandle(x) {
      HandleDelivers(x, delivered, end);
    }
    if end.Eof? && (x.tail.FarewellPart? ==> IsGoodbye(x.tail.payload)) {
      CleanEndDelivers(x);
    }
  }

  /** A connection on which only well-formed packets are sent, and as a farewell a goodbye, is read in full, whatever
      is sent on others. */
  lemma HonestRunsAreReadInFull(run: seq<Step>, h: nat)
    requires Feasible(EMPTY, run) && HonestRun(EMPTY, run, h)
    requires h < |After(EMPTY, run).handles| && EndShows(After(EMPTY, run).handles[h])
    ensures var x := After(EMPTY, run).handles[h]; Packets(x.bytes) == x.accepted && Ending(x.bytes, Eof).Finished?
  {
    RunKeepsInv(EMPTY, run);
    RunKeepsHonest(EMPTY, run, h);
    CleanEndDelivers(After(EMPTY, run).handles[h]);
  }
}
