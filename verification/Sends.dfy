/** What becomes of every packet handed to a `PacketWriter`: when it is dropped, when it is refused, and when it is
    certain to be written; and that a shutdown writes its farewell. */
module Sends {
  import opened Wire
  import opened PacketStream
  import opened Writer
  import opened Delivery

  lemma {:induction false} AfterLast(s: State, run: seq<Step>)
    requires run != [] && Feasible(s, run)
    ensures Feasible(s, run[..|run| - 1]) && Enabled(After(s, run[..|run| - 1]), run[|run| - 1])
    ensures After(s, run) == Apply(After(s, run[..|run| - 1]), run[|run| - 1])
    decreases |run|
  {
    var init := run[..|run| - 1];
    if |run| > 1 {
      AfterLast(Apply(s, run[0]), run[1..]);
      assert run[1..][..|run| - 2] == init[1..];
    }
  }

  // ---------------------------------------------------------------- what the slot holds

  function Replacements(run: seq<Step>): nat {
    if run == [] then 0 else Replacements(run[..|run| - 1]) + if run[|run| - 1].Replace? then 1 else 0
  }

  /** The step may empty the slot that holds `h`, or gives it to another handle. */
  predicate Displaces(step: Step, h: nat) {
    step.Replace? || step.Close? || (step.CloseMatching? && step.handle == h)
  }

  /** The step at `k` brings the handle `h`, which nothing after it displaces. */
  predicate BroughtAt(run: seq<Step>, h: nat, k: nat) {
    && k < |run| && run[k].Replace? && h == Replacements(run[..k])
    && forall j :: k < j < |run| ==> !Displaces(run[j], h)
  }

  /** The slot, told from the history alone: it holds the handle that was brought last, numbered in order, if it has not
      been closed since; closing any other handle does not matter. */
  lemma {:induction false} SlotHoldsLastBrought(run: seq<Step>, h: nat)
    requires Feasible(EMPTY, run)
    ensures |After(EMPTY, run).handles| == Replacements(run)
    ensures After(EMPTY, run).slot == Some(h) <==> exists k: nat :: BroughtAt(run, h, k)
    decreases |run|
  {
    if run == [] {
    } else {
      var n := |run| - 1;
      AfterLast(EMPTY, run);
      var s := After(EMPTY, run[..n]);
      SlotHoldsLastBrought(run[..n], h);
      SlotAfterStep(s, run[n], h);
      BroughtBefore(run, h);
    }
  }

  lemma SlotAfterStep(s: State, step: Step, h: nat)
    requires Enabled(s, step)
    ensures Apply(s, step).slot == Some(h) <==>
            if step.Replace? then h == |s.handles| else s.slot == Some(h) && !Displaces(step, h)
    ensures |Apply(s, step).handles| == |s.handles| + if step.Replace? then 1 else 0
  {
  }

  lemma BroughtBefore(run: seq<Step>, h: nat)
    requires run != []
    ensures var n := |run| - 1;
      (exists k: nat :: BroughtAt(run, h, k)) <==>
      if run[n].Replace? then h == Replacements(run[..n])
      else (exists k: nat :: BroughtAt(run[..n], h, k)) && !Displaces(run[n], h)
  {
    var n := |run| - 1;
    assert forall k :: 0 <= k < n ==> run[..n][..k] == run[..k];
    if k: nat :| BroughtAt(run, h, k) {
      assert k < n ==> BroughtAt(run[..n], h, k);
    }
    if run[n].Replace? && h == Replacements(run[..n]) {
      assert BroughtAt(run, h, n);
    }
    if !run[n].Replace? && !Displaces(run[n], h) {
      if k: nat :| BroughtAt(run[..n], h, k) {
        assert BroughtAt(run, h, k);
      }
    }
  }

  // ---------------------------------------------------------------- the counters by their causes

  /** A send that finds no connection, or whose write fails. */
  predicate IsDrop(s: State, step: Step)
    requires Enabled(s, step)
  {
    match step
    case StartSend(_, _) => s.slot.None?
    case Act(t, Fail) => s.tasks[t].SendWrite?
    case _ => false
  }

  /** A send that gets the mutex of a connection that has been shut down, or has failed, while it waited. */
  predicate IsRefusal(s: State, step: Step)
    requires Enabled(s, step)
  {
    match step
    case Act(t, Lock) => s.tasks[t].SendLock? && !s.handles[s.tasks[t].h].open
    case _ => false
  }

  /** A send that returns Ok. */
  predicate IsReturn(s: State, step: Step)
    requires Enabled(s, step)
  {
    match step
    case Act(t, Finish) => s.tasks[t].SendCount?
    case _ => false
  }

  function One(b: bool): nat {
    if b then 1 else 0
  }

  datatype Causes = Causes(started: nat, returned: nat, dropped: nat, refused: nat)

  /** How often each happens over a run. */
  function CausesIn(s: State, run: seq<Step>): Causes
    requires Feasible(s, run)
    decreases |run|
  {
    if run == [] then Causes(0, 0, 0, 0)
    else
      var step, rest := run[0], CausesIn(Apply(s, run[0]), run[1..]);
      Causes(
        rest.started + One(step.StartSend?), rest.returned + One(IsReturn(s, step)),
        rest.dropped + One(IsDrop(s, step)), rest.refused + One(IsRefusal(s, step)))
  }

  lemma {:induction false} CountersFrom(s: State, run: seq<Step>)
    requires Feasible(s, run)
    ensures var stats, stats', causes := s.stats, After(s, run).stats, CausesIn(s, run);
      && stats'.started == stats.started + causes.started && stats'.sent == stats.sent + causes.returned
      && stats'.dropped == stats.dropped + causes.dropped && stats'.refused == stats.refused + causes.refused
    decreases |run|
  {
    if run == [] {
    } else {
      CountersFrom(Apply(s, run[0]), run[1..]);
    }
  }

  /** Over every run the drop counter is the number of sends that found the slot empty and of writes that failed, and
      nothing else is dropped; a send is refused only by a connection that is no longer open; and the others have
      returned Ok or are in progress. */
  lemma CountersHaveCauses(run: seq<Step>)
    requires Feasible(EMPTY, run)
    ensures var s, causes := After(EMPTY, run), CausesIn(EMPTY, run);
      && s.stats.dropped == causes.dropped && s.stats.refused == causes.refused && s.stats.sent == causes.returned
      && causes.started == causes.returned + causes.dropped + causes.refused + |Sending(s.tasks)|
  {
    CountersFrom(EMPTY, run);
    CountersAreExact(run);
  }

  // ---------------------------------------------------------------- one send

  /** The packet is at a position of `h`'s accepted ones, from `n` on, that has been counted as sent. */
  ghost predicate SentAt(s: State, h: nat, packet: Bytes, i: nat) {
    && h < |s.handles| && i < |s.handles[h].accepted| && s.handles[h].accepted[i] == packet
    && (h, i) in s.stats.returned
  }

  /** Task `t` is still sending the packet on `h`. */
  predicate IsSending(s: State, t: TaskId, h: nat, packet: Bytes, n: nat)
    requires h < |s.handles|
  {
    t in s.tasks && s.tasks[t].h == h
    && match s.tasks[t]
       case SendLock(_, p) => p == packet
       case SendWrite(_, p, _) => p == packet
       case SendCount(_, i) => n <= i < |s.handles[h].accepted| && s.handles[h].accepted[i] == packet
       case _ => false
  }

  /** The send goes on, or has returned Ok with a position of its own. */
  ghost predicate UnderWay(s: State, t: TaskId, h: nat, packet: Bytes, n: nat)
    requires h < |s.handles|
  {
    n <= |s.handles[h].accepted|
    && (IsSending(s, t, h, packet, n) || exists i :: n <= i && SentAt(s, h, packet, i))
  }

  lemma SentStays(s: State, step: Step, h: nat, packet: Bytes, i: nat)
    requires Inv(s) && Enabled(s, step) && SentAt(s, h, packet, i)
    ensures SentAt(Apply(s, step), h, packet, i)
  {
    StepGrows(s, step, h);
  }

  lemma OwnStep(s: State, t: TaskId, action: Action, h: nat, packet: Bytes, n: nat)
    requires Inv(s) && Enabled(s, Act(t, action)) && h < |s.handles|
    requires n <= |s.handles[h].accepted| && IsSending(s, t, h, packet, n)
    requires Apply(s, Act(t, action)).handles[h].open
    ensures UnderWay(Apply(s, Act(t, action)), t, h, packet, n)
  {
    var s', task := Apply(s, Act(t, action)), s.tasks[t];
    assert TaskOk(t, task, s.handles[h]);
    if task.SendCount? {
      assert SentAt(s', h, packet, task.index);
    } else {
      assert IsSending(s', t, h, packet, n);
    }
  }

  lemma OtherStep(s: State, step: Step, t: TaskId, h: nat, packet: Bytes, n: nat)
    requires Inv(s) && Enabled(s, step) && h < |s.handles|
    requires IsSending(s, t, h, packet, n) && (step.Act? ==> step.t != t)
    ensures h < |Apply(s, step).handles| && IsSending(Apply(s, step), t, h, packet, n)
  {
    StepGrows(s, step, h);
  }

  lemma StepKeepsUnderWay(s: State, step: Step, t: TaskId, h: nat, packet: Bytes, n: nat)
    requires Inv(s) && Enabled(s, step) && h < |s.handles| && UnderWay(s, t, h, packet, n)
    requires h < |Apply(s, step).handles| && Apply(s, step).handles[h].open
    ensures UnderWay(Apply(s, step), t, h, packet, n)
  {
    StepGrows(s, step, h);
    if i :| n <= i && SentAt(s, h, packet, i) {
      SentStays(s, step, h, packet, i);
    } else if step.Act? && step.t == t {
      OwnStep(s, t, step.action, h, packet, n);
    } else {
      OtherStep(s, step, t, h, packet, n);
    }
  }

  lemma {:induction false} RunKeepsUnderWay(s: State, run: seq<Step>, t: TaskId, h: nat, packet: Bytes, n: nat)
    requires Inv(s) && Feasible(s, run) && h < |s.handles| && UnderWay(s, t, h, packet, n)
    requires h < |After(s, run).handles| && After(s, run).handles[h].open
    ensures UnderWay(After(s, run), t, h, packet, n)
    decreases |run|
  {
    if run == [] {
    } else {
      StepKeepsInv(s, run[0]);
      StepGrows(s, run[0], h);
      HandleGrows(Apply(s, run[0]), run[1..], h);
      StepKeepsUnderWay(s, run[0], t, h, packet, n);
      RunKeepsUnderWay(Apply(s, run[0]), run[1..], t, h, packet, n);
    }
  }

  lemma SendBegins(s: State, t: TaskId, packet: Bytes, h: nat)
    requires Inv(s) && s.slot == Some(h) && t !in s.tasks
    ensures Enabled(s, StartSend(t, packet)) && h < |Apply(s, StartSend(t, packet)).handles|
    ensures Inv(Apply(s, StartSend(t, packet)))
    ensures UnderWay(Apply(s, StartSend(t, packet)), t, h, packet, |s.handles[h].accepted|)
  {
    StepKeepsInv(s, StartSend(t, packet));
  }

  /** A send on a connection that is open, and is still open when the send has ended, has put its packet among the
      accepted ones, behind those before it, and has been counted, whatever other senders, replacements and closes do
      meanwhile. So only a failed write or a shutdown can keep a packet from being written. */
  lemma SendGoesThrough(run: seq<Step>, t: TaskId, packet: Bytes, h: nat, more: seq<Step>)
    requires Feasible(EMPTY, run) && After(EMPTY, run).slot == Some(h) && t !in After(EMPTY, run).tasks
    requires Feasible(Apply(After(EMPTY, run), StartSend(t, packet)), more)
    requires var s' := After(Apply(After(EMPTY, run), StartSend(t, packet)), more);
      t !in s'.tasks && h < |s'.handles| && s'.handles[h].open
    ensures var s := After(EMPTY, run);
      h < |s.handles|
      && exists i :: |s.handles[h].accepted| <= i && SentAt(After(Apply(s, StartSend(t, packet)), more), h, packet, i)
  {
    var s := After(EMPTY, run);
    RunKeepsInv(EMPTY, run);
    SendBegins(s, t, packet, h);
    RunKeepsUnderWay(Apply(s, StartSend(t, packet)), more, t, h, packet, |s.handles[h].accepted|);
  }

  // ---------------------------------------------------------------- the writer by itself

  /** A step of the writer's tasks in which no I/O fails and nobody is killed. */
  predicate IsOwn(step: Step) {
    step.Act? && !step.action.Fail? && !step.action.Abort?
  }

  ghost predicate AllOwn(run: seq<Step>) {
    forall i :: 0 <= i < |run| ==> IsOwn(run[i])
  }

  ghost predicate WriterAtRest(w: State) {
    forall step :: IsOwn(step) ==> !Enabled(w, step)
  }

  /** Whoever holds a mutex, or only has to count, can go on. */
  lemma HolderCanAct(w: State, t: TaskId)
    requires Inv(w) && t in w.tasks && (Holds(w.tasks[t]) || w.tasks[t].SendCount?)
    ensures !WriterAtRest(w)
  {
    var task := w.tasks[t];
    var left := |Pending(task)| - Written(task);
    assert TaskOk(t, task, w.handles[task.h]);
    assert Enabled(w, Act(t, if task.SendCount? || left == 0 then Finish else Write(left)));
  }

  /** A writer whose tasks cannot go on has none: the mutex a task waits for is free, or its owner can act. */
  lemma RestIsIdle(w: State)
    requires Inv(w) && WriterAtRest(w)
    ensures w.tasks == map[]
  {
    forall t | t in w.tasks
      ensures false
    {
      var task := w.tasks[t];
      assert TaskOk(t, task, w.handles[task.h]) && LockOk(w, task.h);
      if Holds(task) || task.SendCount? {
        HolderCanAct(w, t);
      } else if w.handles[task.h].locked.Some? {
        HolderCanAct(w, w.handles[task.h].locked.value);
      } else {
        assert Enabled(w, Act(t, Lock));
      }
    }
  }

  /** Open, and nobody is about to shut it down. */
  ghost predicate Unthreatened(s: State, h: nat) {
    && h < |s.handles| && s.handles[h].open
    && forall t :: t in s.tasks && !IsSend(s.tasks[t]) ==> s.tasks[t].h != h
  }

  lemma OwnStepKeepsOpen(s: State, step: Step, h: nat)
    requires TasksOk(s) && Enabled(s, step) && IsOwn(step) && Unthreatened(s, h)
    ensures Unthreatened(Apply(s, step), h)
  {
  }

  lemma OwnRest(run: seq<Step>)
    requires run != [] && AllOwn(run)
    ensures IsOwn(run[0]) && AllOwn(run[1..])
  {
    forall i | 0 <= i < |run[1..]|
      ensures IsOwn(run[1..][i])
    {
      assert run[1..][i] == run[i + 1];
    }
  }

  lemma {:induction false} OwnRunKeepsOpen(s: State, run: seq<Step>, h: nat)
    requires Inv(s) && Feasible(s, run) && AllOwn(run) && Unthreatened(s, h)
    ensures Inv(After(s, run)) && Unthreatened(After(s, run), h)
    decreases |run|
  {
    if run == [] {
    } else {
      OwnRest(run);
      StepKeepsInv(s, run[0]);
      OwnStepKeepsOpen(s, run[0], h);
      OwnRunKeepsOpen(Apply(s, run[0]), run[1..], h);
    }
  }

  /** In every reachable state whose slot holds an open connection: a packet sent now is written and counted once the
      writer's own steps, in any order, have brought it to rest. */
  lemma SentAtRest(run: seq<Step>, t: TaskId, packet: Bytes, h: nat, more: seq<Step>)
    requires Feasible(EMPTY, run) && After(EMPTY, run).slot == Some(h) && t !in After(EMPTY, run).tasks
    requires h < |After(EMPTY, run).handles| && After(EMPTY, run).handles[h].open
    requires Feasible(Apply(After(EMPTY, run), StartSend(t, packet)), more) && AllOwn(more)
    requires WriterAtRest(After(Apply(After(EMPTY, run), StartSend(t, packet)), more))
    ensures var s := After(EMPTY, run);
      exists i :: |s.handles[h].accepted| <= i && SentAt(After(Apply(s, StartSend(t, packet)), more), h, packet, i)
  {
    var s := After(EMPTY, run);
    RunKeepsInv(EMPTY, run);
    SendBegins(s, t, packet, h);
    OwnRunKeepsOpen(Apply(s, StartSend(t, packet)), more, h);
    RestIsIdle(After(Apply(s, StartSend(t, packet)), more));
    SendGoesThrough(run, t, packet, h, more);
  }

  // ---------------------------------------------------------------- one shutdown

  /** The step sends off a shutdown of `h`, with that farewell. */
  predicate ShutsOff(s: State, step: Step, h: nat, farewell: Option<Bytes>) {
    && s.slot == Some(h)
    && match step
       case Replace(_) => farewell.None?
       case CloseMatching(_, g, shutdown) => g == h && shutdown && farewell.None?
       case Close(_, payload) => payload.Some? && farewell == payload
       case _ => false
  }

  predicate IsShutdown(task: Task, h: nat) {
    !IsSend(task) && task.h == h
  }

  /** The socket carries the farewell after the accepted packets, and nothing else. */
  predicate Said(x: Handle, farewell: Option<Bytes>) {
    x.tail == if farewell.Some? then FarewellPart(farewell.value, |farewell.value|) else Nothing
  }

  predicate IsShutting(s: State, t: TaskId, h: nat, farewell: Option<Bytes>)
    requires h < |s.handles|
  {
    t in s.tasks && s.tasks[t].h == h
    && match s.tasks[t]
       case ShutLock(_, payload) => payload == farewell && s.handles[h].open
       case ShutWrite(_, payload, _) => Some(payload) == farewell
       case ShutClose(_) => Said(s.handles[h], farewell)
       case _ => false
  }

  /** The shutdown is the only one of its handle, and unless an I/O error has been reported, goes on or is complete. */
  ghost predicate ShutUnderWay(s: State, t: TaskId, h: nat, farewell: Option<Bytes>)
    requires h < |s.handles|
  {
    && s.slot != Some(h) && (forall u :: u in s.tasks && IsShutdown(s.tasks[u], h) ==> u == t)
    && (s.handles[h].errors == 0 ==>
          IsShutting(s, t, h, farewell) || (s.handles[h].closed && Said(s.handles[h], farewell)))
  }

  lemma ShutdownTaskStep(s: State, t: TaskId, action: Action, h: nat, farewell: Option<Bytes>)
    requires Inv(s) && Enabled(s, Act(t, action)) && !action.Abort?
    requires h < |s.handles| && IsShutting(s, t, h, farewell)
    requires Apply(s, Act(t, action)).handles[h].errors == 0
    ensures var s' := Apply(s, Act(t, action));
      IsShutting(s', t, h, farewell) || (s'.handles[h].closed && Said(s'.handles[h], farewell))
  {
    assert TaskOk(t, s.tasks[t], s.handles[h]) && HandleOk(s.handles[h]);
  }

  /** A send's action, on a handle that another task shuts down. */
  lemma SendLeavesHandle(u: TaskId, task: Task, x: Handle, action: Action, t: TaskId, other: Task)
    requires HandleOk(x) && TaskOk(u, task, x) && CanAct(task, x, action) && IsSend(task)
    requires u != t && TaskOk(t, other, x) && HandleAfter(u, task, x, action).errors == 0
    ensures other.ShutLock? ==> HandleAfter(u, task, x, action).open == x.open
    ensures other.ShutClose? ==> HandleAfter(u, task, x, action).tail == x.tail
  {
  }

  lemma OtherLeavesShutdown(s: State, step: Step, t: TaskId, h: nat, farewell: Option<Bytes>)
    requires Inv(s) && Enabled(s, step) && (step.Act? ==> step.t != t)
    requires h < |s.handles| && IsShutting(s, t, h, farewell)
    requires forall u :: u in s.tasks && IsShutdown(s.tasks[u], h) ==> u == t
    requires h < |Apply(s, step).handles| && Apply(s, step).handles[h].errors == 0
    ensures IsShutting(Apply(s, step), t, h, farewell)
  {
    if step.Act? && s.tasks[step.t].h == h {
      var u := step.t;
      assert HandleOk(s.handles[h]) && TaskOk(u, s.tasks[u], s.handles[h]) && TaskOk(t, s.tasks[t], s.handles[h]);
      assert !IsShutdown(s.tasks[u], h);
      SendLeavesHandle(u, s.tasks[u], s.handles[h], step.action, t, s.tasks[t]);
    }
  }

  lemma StepKeepsSaid(s: State, step: Step, h: nat, farewell: Option<Bytes>)
    requires Inv(s) && Enabled(s, step) && h < |s.handles| && s.handles[h].closed && Said(s.handles[h], farewell)
    ensures Apply(s, step).handles[h].closed && Said(Apply(s, step).handles[h], farewell)
  {
    assert HandleOk(s.handles[h]);
    StepGrows(s, step, h);
  }

  lemma ShutdownsStayUnique(s: State, step: Step, t: TaskId, h: nat)
    requires Enabled(s, step) && h < |s.handles| && s.slot != Some(h)
    requires forall u :: u in s.tasks && IsShutdown(s.tasks[u], h) ==> u == t
    ensures Apply(s, step).slot != Some(h)
    ensures forall u :: u in Apply(s, step).tasks && IsShutdown(Apply(s, step).tasks[u], h) ==> u == t
  {
  }

  lemma StepKeepsShutdown(s: State, step: Step, t: TaskId, h: nat, farewell: Option<Bytes>)
    requires Inv(s) && Enabled(s, step) && h < |s.handles| && ShutUnderWay(s, t, h, farewell)
    requires step != Act(t, Abort)
    ensures h < |Apply(s, step).handles| && ShutUnderWay(Apply(s, step), t, h, farewell)
  {
    StepGrows(s, step, h);
    ShutdownsStayUnique(s, step, t, h);
    if s.handles[h].closed && Said(s.handles[h], farewell) {
      StepKeepsSaid(s, step, h, farewell);
    } else if step.Act? && step.t == t {
      if Apply(s, step).handles[h].errors == 0 {
        ShutdownTaskStep(s, t, step.action, h, farewell);
      }
    } else if s.handles[h].errors == 0 && Apply(s, step).handles[h].errors == 0 {
      OtherLeavesShutdown(s, step, t, h, farewell);
    }
  }

  lemma {:induction false} RunKeepsShutdown(s: State, run: seq<Step>, t: TaskId, h: nat, farewell: Option<Bytes>)
    requires Inv(s) && Feasible(s, run) && h < |s.handles| && ShutUnderWay(s, t, h, farewell)
    requires Act(t, Abort) !in run
    ensures h < |After(s, run).handles| && ShutUnderWay(After(s, run), t, h, farewell) && Inv(After(s, run))
    decreases |run|
  {
    if run == [] {
    } else {
      StepKeepsShutdown(s, run[0], t, h, farewell);
      StepKeepsInv(s, run[0]);
      RunKeepsShutdown(Apply(s, run[0]), run[1..], t, h, farewell);
    }
  }

  lemma ShutdownBegins(s: State, step: Step, h: nat, farewell: Option<Bytes>)
    requires Inv(s) && Enabled(s, step) && ShutsOff(s, step, h, farewell)
    requires h < |s.handles| && s.handles[h].open
    ensures h < |Apply(s, step).handles| && ShutUnderWay(Apply(s, step), step.t, h, farewell)
  {
    assert HandleOk(s.handles[h]);
  }

  /** Every open connection that is replaced, or closed with a shutdown, has its socket shut down, with the farewell
      after the accepted packets and nothing else, as soon as the shutdown has ended, unless an I/O error has been
      reported or the shutdown was killed, whatever the senders that still have the handle do. */
  lemma ShutdownGoesThrough(run: seq<Step>, step: Step, h: nat, farewell: Option<Bytes>, more: seq<Step>)
    requires Feasible(EMPTY, run) && Enabled(After(EMPTY, run), step) && ShutsOff(After(EMPTY, run), step, h, farewell)
    requires h < |After(EMPTY, run).handles| && After(EMPTY, run).handles[h].open
    requires Feasible(Apply(After(EMPTY, run), step), more) && Act(step.t, Abort) !in more
    requires step.t !in After(Apply(After(EMPTY, run), step), more).tasks
    ensures var s' := After(Apply(After(EMPTY, run), step), more);
      && h < |s'.handles|
      && (s'.handles[h].errors == 0 ==>
            && s'.handles[h].closed
            && s'.handles[h].bytes ==
               Flatten(s'.handles[h].accepted) + if farewell.Some? then farewell.value else [])
  {
    var s := After(EMPTY, run);
    RunKeepsInv(EMPTY, run);
    StepKeepsInv(s, step);
    ShutdownBegins(s, step, h, farewell);
    RunKeepsShutdown(Apply(s, step), more, step.t, h, farewell);
    assert HandleOk(After(Apply(s, step), more).handles[h]);
  }
}
