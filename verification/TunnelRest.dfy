/** The tasks of the tunnel come to rest by themselves: what they do without new packets, new connections, failures or
    expiring timers ends after finitely many steps, and ends only when nobody has anything left to do. */
module TunnelRest {
  import opened Wire
  import opened PacketStream
  import opened Endpoints
  import opened Tunnel
  import opened TunnelSafety
  import opened TunnelLoop
  import W = Writer

  /** The steps that tasks take by themselves. What the servers of orphans write is not among them: nobody reads it. */
  predicate Internal(step: Step) {
    match step
    case ClientAct(_, action) => !action.Fail?
    case ServerAct(_, _, action) => !action.Fail?
    case SpawnReader => true
    case ClientRead(_, _) => true
    case ClientEof(_) => true
    case ClientClose(_) => true
    case ClientDone(_) => true
    case ServerRead(_, _) => true
    case ServerEof(_, _) => true
    case _ => false
  }

  ghost predicate AllInternal(run: seq<Step>) {
    forall i :: 0 <= i < |run| ==> Internal(run[i])
  }

  ghost predicate AtRest(s: State) {
    Shape(s) && forall step :: Internal(step) ==> !Enabled(s, step)
  }

  // ---------------------------------------------------------------- sums

  function Sum(xs: seq<nat>): nat {
    if xs == [] then 0 else Sum(xs[..|xs| - 1]) + xs[|xs| - 1]
  }

  lemma {:induction false} SumShrinks(xs: seq<nat>, ys: seq<nat>)
    requires |xs| == |ys| && forall i :: 0 <= i < |xs| ==> ys[i] <= xs[i]
    ensures Sum(ys) <= Sum(xs)
    ensures (exists i :: 0 <= i < |xs| && ys[i] < xs[i]) ==> Sum(ys) < Sum(xs)
  {
    if xs == [] {
    } else {
      var n := |xs| - 1;
      SumShrinks(xs[..n], ys[..n]);
      if i :| 0 <= i < |xs| && ys[i] < xs[i] {
        assert i < n ==> ys[..n][i] < xs[..n][i];
      }
    }
  }

  // ---------------------------------------------------------------- what a writer's tasks have left to do

  function BytesLeft(data: Bytes, written: nat): nat {
    if written <= |data| then |data| - written else 0
  }

  function TaskLoad(task: W.Task): nat {
    match task
    case SendLock(_, p) => |p| + 4
    case SendWrite(_, p, n) => BytesLeft(p, n) + 3
    case SendCount(_, _) => 1
    case ShutLock(_, farewell) => if farewell.Some? then |farewell.value| + 4 else 3
    case ShutWrite(_, g, n) => BytesLeft(g, n) + 3
    case ShutClose(_) => 2
  }

  function LoadOf(tasks: map<W.TaskId, W.Task>, t: W.TaskId): nat {
    if t in tasks then TaskLoad(tasks[t]) else 0
  }

  /** The load of the tasks whose ids are below `n`. */
  function Load(tasks: map<W.TaskId, W.Task>, n: nat): nat {
    if n == 0 then 0 else Load(tasks, n - 1) + LoadOf(tasks, n - 1)
  }

  lemma {:induction false} LoadShrinks(tasks: map<W.TaskId, W.Task>, tasks': map<W.TaskId, W.Task>, t: W.TaskId, n: nat)
    requires forall u :: u != t ==> LoadOf(tasks', u) == LoadOf(tasks, u)
    requires LoadOf(tasks', t) < LoadOf(tasks, t)
    ensures if t < n then Load(tasks', n) < Load(tasks, n) else Load(tasks', n) == Load(tasks, n)
  {
    if n == 0 {
    } else {
      LoadShrinks(tasks, tasks', t, n - 1);
    }
  }

  lemma ActionShrinksLoad(t: W.TaskId, task: W.Task, x: W.Handle, action: W.Action)
    requires W.CanAct(task, x, action) && !action.Fail? && !action.Abort?
    ensures var next := W.TaskAfter(task, x, action); next.Some? ==> TaskLoad(next.value) < TaskLoad(task)
    ensures 0 < TaskLoad(task)
  {
  }

  lemma ActShrinksLoad(w: W.State, t: W.TaskId, action: W.Action, n: nat)
    requires W.Enabled(w, W.Act(t, action)) && !action.Fail? && !action.Abort? && t < n
    ensures Load(W.Apply(w, W.Act(t, action)).tasks, n) < Load(w.tasks, n)
  {
    ActionShrinksLoad(t, w.tasks[t], w.handles[w.tasks[t].h], action);
    LoadShrinks(w.tasks, W.Apply(w, W.Act(t, action)).tasks, t, n);
  }

  // ---------------------------------------------------------------- the measure

  /** How far a connection's two reader tasks are from their ends. */
  function Stage(conn: Conn): nat {
    (match conn.task
     case Unspawned => 4
     case Reading => 3
     case Ended(_) => 2
     case Closing(_) => 1
     case Done => 0
     case Aborted => 0)
    + if conn.up.end.Running? then 1 else 0
  }

  function Stages(s: State): (r: seq<nat>)
    ensures |r| == |s.conns| && forall i :: 0 <= i < |r| ==> r[i] == Stage(s.conns[i])
  {
    seq(|s.conns|, i requires 0 <= i < |s.conns| => Stage(s.conns[i]))
  }

  function Loads(s: State): (r: seq<nat>)
    ensures |r| == |s.conns| && forall i :: 0 <= i < |r| ==> r[i] == Load(s.conns[i].server.tasks, s.nextTask)
  {
    seq(|s.conns|, i requires 0 <= i < |s.conns| => Load(s.conns[i].server.tasks, s.nextTask))
  }

  /** The bytes a reader has still to take. */
  function Ahead(pipe: Pipe, x: W.Handle): nat {
    if pipe.pos <= |x.bytes| then |x.bytes| - pipe.pos else 0
  }

  function Aheads(s: State): (r: seq<nat>)
    requires Shape(s)
    ensures |r| == |s.conns|
    ensures forall i :: 0 <= i < |r| ==>
              r[i] == Ahead(s.conns[i].up, s.client.handles[i]) + Ahead(s.conns[i].down, s.conns[i].server.handles[0])
  {
    seq(|s.conns|, i requires 0 <= i < |s.conns| =>
        Ahead(s.conns[i].up, s.client.handles[i]) + Ahead(s.conns[i].down, s.conns[i].server.handles[0]))
  }

  function Writing(s: State): nat {
    Load(s.client.tasks, s.nextTask) + Sum(Loads(s))
  }

  /** Closer to rest: lexicographically in how far the readers are, what is left to write, and what is left to read. */
  predicate Closer(s': State, s: State)
    requires Shape(s) && Shape(s')
  {
    || Sum(Stages(s')) < Sum(Stages(s))
    || (Sum(Stages(s')) == Sum(Stages(s)) && Writing(s') < Writing(s))
    || (Sum(Stages(s')) == Sum(Stages(s)) && Writing(s') == Writing(s) && Sum(Aheads(s')) < Sum(Aheads(s)))
  }

  predicate IsStage(step: Step) {
    step.SpawnReader? || step.ClientEof? || step.ClientClose? || step.ClientDone? || step.ServerEof?
  }

  lemma StageStep(s: State, step: Step)
    requires LoopOk(s) && Enabled(s, step) && IsStage(step)
    ensures var s' := Apply(s, step);
      && |s'.conns| == |s.conns|
      && (forall i :: 0 <= i < |s.conns| ==> Stage(s'.conns[i]) <= Stage(s.conns[i]))
      && exists c :: 0 <= c < |s.conns| && Stage(s'.conns[c]) < Stage(s.conns[c])
  {
    var c := if step.SpawnReader? then s.loop.c else step.c;
    assert Stage(Apply(s, step).conns[c]) < Stage(s.conns[c]);
  }

  lemma StageStepIsCloser(s: State, step: Step)
    requires LoopOk(s) && Enabled(s, step) && IsStage(step) && Shape(Apply(s, step))
    ensures Closer(Apply(s, step), s)
  {
    StageStep(s, step);
    var c :| 0 <= c < |s.conns| && Stage(Apply(s, step).conns[c]) < Stage(s.conns[c]);
    assert Stages(Apply(s, step))[c] < Stages(s)[c];
    SumShrinks(Stages(s), Stages(Apply(s, step)));
  }

  lemma ClientActIsCloser(s: State, t: W.TaskId, action: W.Action)
    requires IdsOk(s) && Shape(s) && Enabled(s, ClientAct(t, action)) && Internal(ClientAct(t, action))
    requires Shape(Apply(s, ClientAct(t, action)))
    ensures Closer(Apply(s, ClientAct(t, action)), s)
  {
    var s' := Apply(s, ClientAct(t, action));
    assert Stages(s') == Stages(s) && Loads(s') == Loads(s);
    ActShrinksLoad(s.client, t, action, s.nextTask);
  }

  lemma ServerActIsCloser(s: State, c: nat, t: W.TaskId, action: W.Action)
    requires IdsOk(s) && Shape(s) && Enabled(s, ServerAct(c, t, action)) && Internal(ServerAct(c, t, action))
    requires Shape(Apply(s, ServerAct(c, t, action)))
    ensures Closer(Apply(s, ServerAct(c, t, action)), s)
  {
    var s' := Apply(s, ServerAct(c, t, action));
    assert Stages(s') == Stages(s);
    ActShrinksLoad(s.conns[c].server, t, action, s.nextTask);
    assert Loads(s')[c] < Loads(s)[c];
    SumShrinks(Loads(s), Loads(s'));
  }

  lemma ReadTakesBytes(pipe: Pipe, x: W.Handle, avail: nat, accepting: bool)
    requires CanRead(pipe, x.bytes, avail)
    ensures Ahead(Read(pipe, x.bytes, avail, accepting), x) < Ahead(pipe, x)
  {
  }

  lemma ReadTakesAhead(s: State, step: Step)
    requires Shape(s) && Enabled(s, step) && (step.ClientRead? || step.ServerRead?) && Shape(Apply(s, step))
    requires |Apply(s, step).conns| == |s.conns|
    ensures Aheads(Apply(s, step))[step.c] < Aheads(s)[step.c]
  {
    var c := step.c;
    if step.ClientRead? {
      ReadTakesBytes(s.conns[c].down, s.conns[c].server.handles[0], step.avail, s.flags.ingress);
    } else {
      ReadTakesBytes(s.conns[c].up, s.client.handles[c], step.avail, s.flags.egress);
    }
  }

  lemma ReadKeepsRest(s: State, step: Step)
    requires Shape(s) && Enabled(s, step) && (step.ClientRead? || step.ServerRead?) && Shape(Apply(s, step))
    ensures var s' := Apply(s, step);
      && |s'.conns| == |s.conns| && Stages(s') == Stages(s) && Loads(s') == Loads(s)
      && s'.client == s.client && s'.nextTask == s.nextTask
      && forall c :: 0 <= c < |s.conns| && c != step.c ==> s'.conns[c] == s.conns[c]
  {
    ConnStepFrame(s, step);
  }

  lemma CloserByReading(s: State, s': State, c: nat)
    requires Shape(s) && Shape(s') && c < |s.conns| == |s'.conns|
    requires s'.client == s.client && s'.nextTask == s.nextTask
    requires Stages(s') == Stages(s) && Loads(s') == Loads(s) && Aheads(s')[c] < Aheads(s)[c]
    requires forall i :: 0 <= i < |s.conns| && i != c ==> s'.conns[i] == s.conns[i]
    ensures Closer(s', s)
  {
    SumShrinks(Aheads(s), Aheads(s'));
  }

  lemma ReadIsCloser(s: State, step: Step)
    requires Shape(s) && Enabled(s, step) && (step.ClientRead? || step.ServerRead?) && Shape(Apply(s, step))
    ensures Closer(Apply(s, step), s)
  {
    ReadKeepsRest(s, step);
    ReadTakesAhead(s, step);
    CloserByReading(s, Apply(s, step), step.c);
  }

  /** Every step that a task takes by itself brings the system closer to rest. */
  lemma InternalStepIsCloser(s: State, step: Step)
    requires Inv(s) && Enabled(s, step) && Internal(step)
    ensures Shape(Apply(s, step)) && Closer(Apply(s, step), s)
  {
    StepKeepsShape(s, step);
    if IsStage(step) {
      StageStepIsCloser(s, step);
    } else if step.ClientAct? {
      ClientActIsCloser(s, step.t, step.action);
    } else if step.ServerAct? {
      ServerActIsCloser(s, step.c, step.t, step.action);
    } else {
      ReadIsCloser(s, step);
    }
  }

  lemma StepThenRun(s: State, step: Step, rest: seq<Step>)
    requires Shape(s) && Enabled(s, step) && Feasible(Apply(s, step), rest)
    ensures Feasible(s, [step] + rest) && After(s, [step] + rest) == After(Apply(s, step), rest)
  {
    assert ([step] + rest)[1..] == rest;
  }

  lemma TakeStep(s: State) returns (step: Step)
    requires Inv(s) && !AtRest(s)
    ensures Internal(step) && Enabled(s, step) && Inv(Apply(s, step)) && Closer(Apply(s, step), s)
  {
    step :| Internal(step) && Enabled(s, step);
    InternalStepIsCloser(s, step);
    StepKeepsInv(s, step);
  }

  /** The run brings `s` to rest. */
  ghost predicate Rests(s: State, run: seq<Step>) {
    Feasible(s, run) && AllInternal(run) && AtRest(After(s, run))
  }

  lemma RestsAfterStep(s: State, step: Step, rest: seq<Step>)
    requires Shape(s) && Enabled(s, step) && Internal(step) && Rests(Apply(s, step), rest)
    ensures Rests(s, [step] + rest)
  {
    StepThenRun(s, step, rest);
  }

  lemma ComesToRestFrom(s: State, stages: nat, writing: nat, aheads: nat) returns (run: seq<Step>)
    requires Inv(s) && stages == Sum(Stages(s)) && writing == Writing(s) && aheads == Sum(Aheads(s))
    ensures Rests(s, run)
    decreases stages, writing, aheads
  {
    if AtRest(s) {
      run := [];
    } else {
      var step := TakeStep(s);
      var s' := Apply(s, step);
      var rest := ComesToRestFrom(s', Sum(Stages(s')), Writing(s'), Sum(Aheads(s')));
      RestsAfterStep(s, step, rest);
      run := [step] + rest;
    }
  }

  lemma RestIsNear(s: State) returns (run: seq<Step>)
    requires Inv(s)
    ensures Rests(s, run)
  {
    run := ComesToRestFrom(s, Sum(Stages(s)), Writing(s), Sum(Aheads(s)));
  }

  /** From every reachable state the tasks by themselves bring the system to rest, whatever packets were sent: taking
      any step that is enabled, again and again, ends there. */
  lemma ComesToRest(flags: Flags, before: seq<Step>) returns (run: seq<Step>)
    requires Feasible(Start(flags), before)
    ensures Rests(After(Start(flags), before), run)
  {
    StartOk(flags);
    RunKeepsInv(Start(flags), before);
    run := RestIsNear(After(Start(flags), before));
  }
}
