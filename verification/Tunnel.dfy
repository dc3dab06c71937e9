/** A client connection and the server connections it opens over its life: the rotation loop of
    src/transport/http/client/connection.rs, its reader tasks, the server's tasks, any number of senders on either
    side, and the two byte streams of every connection, all interleaving. The writers are those of module `Writer`. */
module Tunnel {
  import opened Wire
  import opened PacketStream
  import opened Delivery
  import opened Endpoints
  import W = Writer

  /** How a reader task stopped, if it did. */
  datatype ReaderEnd = Running | Clean | Torn

  /** One direction of a connection as its reader sees it: bytes consumed, packets forwarded to the tun device, and
      packets thrown away because the connection does not carry that direction. */
  datatype Pipe = Pipe(pos: nat, tun: seq<Bytes>, discarded: nat, end: ReaderEnd)

  const FRESH_PIPE := Pipe(0, [], 0, Running)

  /** The client's task for a connection: reading; done reading; inside `close_matching`'s shutdown `t`; finished;
      killed. */
  datatype ClientTask = Unspawned | Reading | Ended(graceful: bool) | Closing(t: W.TaskId) | Done | Aborted

  datatype Conn = Conn(server: W.State, task: ClientTask, up: Pipe, down: Pipe)

  /** Where the loop of `Connection::handle` is, for the connection it is serving. */
  datatype Loop =
    | Connecting
    | Installed(c: nat, shutdown: Option<W.TaskId>)
    | Awaiting(c: nat, shutdown: Option<W.TaskId>)
    | Serving(c: nat)
    | Served(c: nat, expired: bool)
    | Retired(c: nat, expired: bool)

  /** Connection `c` writes to handle `c` of the client's writer. Task ids are never reused. `orphans`: the writers of
      server connections whose client gave the attempt up after the server had answered it; nobody reads what they
      send. */
  datatype State = State(
    flags: Flags, client: W.State, conns: seq<Conn>, loop: Loop, previous: Option<nat>, nextTask: W.TaskId,
    orphans: seq<W.State>)

  function Start(flags: Flags): State {
    State(flags, W.EMPTY, [], Connecting, None, 0, [])
  }

  /** A server connection is born with its write half installed. */
  const NEW_SERVER := W.EMPTY.(slot := Some(0), handles := [W.NEW_HANDLE])

  /** Why a reader gives up: its socket, or a writer that reports its own failure to it; or the bytes themselves,
      found out when those up to `avail` have been delivered, and the end of the stream too if `end` is a clean one. */
  datatype Cause = Socket | Content(avail: nat, end: End)

  datatype Step =
    | Send(packet: Bytes)
    | ClientAct(t: W.TaskId, action: W.Action)
    | Connect
    | SpawnReader
    | ShutdownAwaited
    | TtlExpired
    | TaskJoined
    | RetirePrevious
    | Rotate
    | ClientRead(c: nat, avail: nat)
    | ClientEof(c: nat)
    | ClientFail(c: nat, cause: Cause)
    | ClientClose(c: nat)
    | ClientDone(c: nat)
    | ServerSend(c: nat, packet: Bytes)
    | ServerAct(c: nat, t: W.TaskId, action: W.Action)
    | ServerRead(c: nat, avail: nat)
    | ServerEof(c: nat, goodbye: Bytes)
    | ServerFail(c: nat, cause: Cause)
    | Abandon
    | OrphanMove(i: nat, move: W.Step)

  /** Every connection has its handle on either side, and the loop and `previous` refer to connections that exist. */
  predicate Shape(s: State) {
    && |s.conns| == |s.client.handles|
    && (forall c :: 0 <= c < |s.conns| ==> |s.conns[c].server.handles| == 1)
    && (!s.loop.Connecting? ==> s.loop.c < |s.conns|)
    && (s.previous.Some? ==> s.previous.value < |s.conns|)
  }

  /** The reader finds a whole packet in what has been delivered of the stream. */
  predicate CanRead(pipe: Pipe, bytes: Bytes, avail: nat) {
    pipe.end.Running? && pipe.pos <= avail <= |bytes| && Next(bytes[pipe.pos..avail], Fault).Packet?
  }

  function Read(pipe: Pipe, bytes: Bytes, avail: nat, accepting: bool): Pipe
    requires CanRead(pipe, bytes, avail)
  {
    var packet := Next(bytes[pipe.pos..avail], Fault).data;
    var pipe := pipe.(pos := pipe.pos + |packet|);
    if accepting then pipe.(tun := pipe.tun + [packet]) else pipe.(discarded := pipe.discarded + 1)
  }

  /** The reader reaches the clean end of the stream: the writer has come to shutting its socket down, and everything
      has arrived. */
  predicate CanFinish(pipe: Pipe, x: W.Handle) {
    pipe.end.Running? && W.EndShows(x) && pipe.pos <= |x.bytes| && Next(x.bytes[pipe.pos..], Eof).Finished?
  }

  /** The reader refuses what it has been given: a bad version, a bad size, data after a goodbye, or a clean end
      inside a packet. */
  predicate CanRefuse(pipe: Pipe, x: W.Handle, avail: nat, end: End) {
    && pipe.end.Running? && pipe.pos <= avail <= |x.bytes| && (end.Eof? ==> W.EndShows(x) && avail == |x.bytes|)
    && Next(x.bytes[pipe.pos..avail], end).Failed? && !Next(x.bytes[pipe.pos..avail], end).error.Broken?
  }

  predicate CanFail(pipe: Pipe, x: W.Handle, cause: Cause) {
    match cause
    case Socket => pipe.end.Running?
    case Content(avail, end) => CanRefuse(pipe, x, avail, end)
  }

  /** An orphan's server sends, writes, and at some time learns that its client is gone. */
  predicate OrphanCan(s: State, w: W.State, move: W.Step) {
    && W.Enabled(w, move)
    && match move
       case StartSend(t, _) => s.flags.ingress && t == s.nextTask
       case Act(_, action) => !action.Abort?
       case Close(_, farewell) => farewell.None?
       case _ => false
  }

  predicate Enabled(s: State, step: Step)
    requires Shape(s)
  {
    match step
    case Send(packet) => s.flags.egress && W.Enabled(s.client, W.StartSend(s.nextTask, packet))
    case ClientAct(t, action) => !action.Abort? && W.Enabled(s.client, W.Act(t, action))
    case Connect => s.loop.Connecting? && W.Enabled(s.client, W.Replace(s.nextTask))
    case SpawnReader => s.loop.Installed?
    case ShutdownAwaited => s.loop.Awaiting? && (s.loop.shutdown.Some? ==> s.loop.shutdown.value !in s.client.tasks)
    case TtlExpired => s.loop.Serving?
    case TaskJoined => s.loop.Serving? && s.conns[s.loop.c].task.Done?
    case RetirePrevious => s.loop.Served?
    case Rotate => s.loop.Retired?
    case ClientRead(c, avail) =>
      c < |s.conns| && s.conns[c].task.Reading? && CanRead(s.conns[c].down, s.conns[c].server.handles[0].bytes, avail)
    case ClientEof(c) => c < |s.conns| && s.conns[c].task.Reading?
      && CanFinish(s.conns[c].down, s.conns[c].server.handles[0])
    case ClientFail(c, cause) =>
      c < |s.conns| && s.conns[c].task.Reading? && CanFail(s.conns[c].down, s.conns[c].server.handles[0], cause)
    case ClientClose(c) => c < |s.conns| && s.conns[c].task.Ended? && s.nextTask !in s.client.tasks
    case ClientDone(c) => c < |s.conns| && s.conns[c].task.Closing? && s.conns[c].task.t !in s.client.tasks
    case ServerSend(c, packet) =>
      c < |s.conns| && s.flags.ingress && W.Enabled(s.conns[c].server, W.StartSend(s.nextTask, packet))
    case ServerAct(c, t, action) => c < |s.conns| && !action.Abort? && W.Enabled(s.conns[c].server, W.Act(t, action))
    case ServerRead(c, avail) => c < |s.conns| && CanRead(s.conns[c].up, s.client.handles[c].bytes, avail)
    case ServerEof(c, goodbye) =>
      && c < |s.conns| && CanFinish(s.conns[c].up, s.client.handles[c]) && IsGoodbye(goodbye)
      && W.Enabled(s.conns[c].server, W.Close(s.nextTask, Some(goodbye)))
    case ServerFail(c, cause) =>
      c < |s.conns| && CanFail(s.conns[c].up, s.client.handles[c], cause)
      && W.Enabled(s.conns[c].server, W.Close(s.nextTask, None))
    case Abandon => s.loop.Connecting?
    case OrphanMove(i, move) => i < |s.orphans| && OrphanCan(s, s.orphans[i], move)
  }

  function SetConn(s: State, c: nat, conn: Conn): State
    requires c < |s.conns|
  {
    s.(conns := s.conns[c := conn])
  }

  predicate Alive(task: ClientTask) {
    task.Reading? || task.Ended? || task.Closing?
  }

  /** `close_previous_connection`: a finished task is left alone, any other is killed, wherever it is. */
  function Retire(s: State, p: nat): State
    requires Shape(s) && p < |s.conns|
  {
    var conn := s.conns[p];
    if conn.task.Done? then s
    else
      var client :=
        if conn.task.Closing? && W.Enabled(s.client, W.Act(conn.task.t, W.Abort))
        then W.Apply(s.client, W.Act(conn.task.t, W.Abort)) else s.client;
      SetConn(s.(client := client), p, conn.(task := Aborted))
  }

  function Apply(s: State, step: Step): State
    requires Shape(s) && Enabled(s, step)
  {
    match step
    case Send(packet) => s.(client := W.Apply(s.client, W.StartSend(s.nextTask, packet)), nextTask := s.nextTask + 1)
    case ClientAct(t, action) => s.(client := W.Apply(s.client, W.Act(t, action)))
    case Connect =>
      s.(client := W.Apply(s.client, W.Replace(s.nextTask)), nextTask := s.nextTask + 1,
         conns := s.conns + [Conn(NEW_SERVER, Unspawned, FRESH_PIPE, FRESH_PIPE)],
         loop := Installed(|s.conns|, if s.client.slot.Some? then Some(s.nextTask) else None))
    case SpawnReader =>
      SetConn(s, s.loop.c, s.conns[s.loop.c].(task := Reading)).(loop := Awaiting(s.loop.c, s.loop.shutdown))
    case ShutdownAwaited => s.(loop := Serving(s.loop.c))
    case TtlExpired => s.(loop := Served(s.loop.c, true))
    case TaskJoined => s.(loop := Served(s.loop.c, false))
    case RetirePrevious =>
      var s' := if s.previous.Some? then Retire(s, s.previous.value) else s;
      s'.(previous := None, loop := Retired(s.loop.c, s.loop.expired))
    case Rotate => s.(loop := Connecting, previous := if s.loop.expired then Some(s.loop.c) else s.previous)
    case ClientRead(c, avail) =>
      var conn := s.conns[c];
      SetConn(s, c, conn.(down := Read(conn.down, conn.server.handles[0].bytes, avail, s.flags.ingress)))
    case ClientEof(c) => SetConn(s, c, s.conns[c].(task := Ended(true), down := s.conns[c].down.(end := Clean)))
    case ClientFail(c, _) => SetConn(s, c, s.conns[c].(task := Ended(false), down := s.conns[c].down.(end := Torn)))
    case ClientClose(c) =>
      var graceful := s.conns[c].task.graceful;
      var task := if graceful && s.client.slot == Some(c) then Closing(s.nextTask) else Done;
      SetConn(s, c, s.conns[c].(task := task)).(
        client := W.Apply(s.client, W.CloseMatching(s.nextTask, c, graceful)), nextTask := s.nextTask + 1)
    case ClientDone(c) => SetConn(s, c, s.conns[c].(task := Done))
    case ServerSend(c, packet) =>
      var server := W.Apply(s.conns[c].server, W.StartSend(s.nextTask, packet));
      SetConn(s, c, s.conns[c].(server := server)).(nextTask := s.nextTask + 1)
    case ServerAct(c, t, action) => SetConn(s, c, s.conns[c].(server := W.Apply(s.conns[c].server, W.Act(t, action))))
    case ServerRead(c, avail) =>
      var conn := s.conns[c];
      SetConn(s, c, conn.(up := Read(conn.up, s.client.handles[c].bytes, avail, s.flags.egress)))
    case ServerEof(c, goodbye) =>
      var conn := s.conns[c];
      var server := W.Apply(conn.server, W.Close(s.nextTask, Some(goodbye)));
      SetConn(s, c, conn.(server := server, up := conn.up.(end := Clean))).(nextTask := s.nextTask + 1)
    case ServerFail(c, _) =>
      var conn := s.conns[c];
      var server := W.Apply(conn.server, W.Close(s.nextTask, None));
      SetConn(s, c, conn.(server := server, up := conn.up.(end := Torn)))
    case Abandon => s.(orphans := s.orphans + [NEW_SERVER])
    case OrphanMove(i, move) => s.(orphans := s.orphans[i := W.Apply(s.orphans[i], move)], nextTask := s.nextTask + 1)
  }

  /** A direction of a connection: towards the server, or towards the client. */
  datatype Way = Up | Down

  /** What is sent on connection `c` in one direction is well formed; what is sent in the other, or on others, does
      not matter. */
  predicate Proper(s: State, step: Step, c: nat, way: Way) {
    match step
    case Send(packet) => way.Up? && s.client.slot == Some(c) ==> WellFormed(packet)
    case ServerSend(d, packet) => way.Down? && c == d ==> WellFormed(packet)
    case _ => true
  }

  function PipeOf(conn: Conn, way: Way): Pipe {
    if way.Up? then conn.up else conn.down
  }

  /** The reader of that direction gives up. */
  predicate Fails(step: Step, c: nat, way: Way) {
    match step
    case ClientFail(d, _) => way.Down? && d == c
    case ServerFail(d, _) => way.Up? && d == c
    case _ => false
  }

  // ---------------------------------------------------------------- pipes

  /** The packets whose last byte is on the socket; the last of them may still be waiting for its sender to notice. */
  function OnWire(x: W.Handle): seq<Bytes> {
    x.accepted + if x.tail.PartOf? && x.tail.written == |x.tail.packet| then [x.tail.packet] else []
  }

  /** What follows them. */
  function Rest(x: W.Handle): Bytes {
    if x.tail.PartOf? && x.tail.written == |x.tail.packet| then [] else W.TailBytes(x.tail)
  }

  ghost predicate StreamOk(x: W.Handle) {
    W.HandleOk(x) && HonestHandle(x)
  }

  lemma WireBytes(x: W.Handle)
    requires StreamOk(x)
    ensures x.bytes == Flatten(OnWire(x)) + Rest(x) && AllWellFormed(OnWire(x)) && Packets(Rest(x)) == []
    ensures W.EndShows(x) ==> OnWire(x) == x.accepted
  {
    if x.tail.PartOf? && x.tail.written == |x.tail.packet| {
      FlattenSnoc(x.accepted, x.tail.packet);
    } else {
      TailHasNoPacket(x.tail);
      assert OnWire(x) == x.accepted;
    }
  }

  ghost predicate PipeOk(pipe: Pipe, x: W.Handle, accepting: bool) {
    && pipe.discarded == 0
    && pipe.tun <= OnWire(x) && pipe.pos == |Flatten(pipe.tun)|
    && (pipe.end.Clean? ==> W.EndShows(x) && pipe.tun == x.accepted)
    && (!accepting ==> OnWire(x) == [])
  }

  /** The stream from where the reader is: the packets it has not returned, and the tail. */
  lemma FromPos(x: W.Handle, pipe: Pipe, accepting: bool)
    requires StreamOk(x) && PipeOk(pipe, x, accepting)
    ensures var left := OnWire(x)[|pipe.tun|..];
      pipe.pos <= |x.bytes| && x.bytes[pipe.pos..] == Flatten(left) + Rest(x) && AllWellFormed(left)
  {
    WireBytes(x);
    var left := OnWire(x)[|pipe.tun|..];
    assert OnWire(x) == pipe.tun + left;
    FlattenAppend(pipe.tun, left);
    ConcatAssoc(Flatten(pipe.tun), Flatten(left), Rest(x));
  }

  /** Whatever has been delivered, the next packet read is the next packet written. */
  lemma ReadKeepsPipe(x: W.Handle, pipe: Pipe, avail: nat, accepting: bool)
    requires StreamOk(x) && PipeOk(pipe, x, accepting) && CanRead(pipe, x.bytes, avail)
    ensures PipeOk(Read(pipe, x.bytes, avail, accepting), x, accepting)
  {
    var delivered, n := x.bytes[pipe.pos..avail], |pipe.tun|;
    var packet, rest := Next(delivered, Fault).data, Next(delivered, Fault).rest;
    FromPos(x, pipe, accepting);
    WireBytes(x);
    var left := OnWire(x)[n..];
    ReadCons(packet, rest, Fault);
    PacketsMonotone(delivered, Flatten(left) + Rest(x));
    ReadFlatten(left, Rest(x), Fault);
    assert left + [] == left;
    assert packet == left[0] == OnWire(x)[n];
    FlattenSnoc(pipe.tun, packet);
  }

  /** A clean end means that everything has been read. */
  lemma FinishKeepsPipe(x: W.Handle, pipe: Pipe, accepting: bool)
    requires StreamOk(x) && PipeOk(pipe, x, accepting) && CanFinish(pipe, x)
    ensures PipeOk(pipe.(end := Clean), x, accepting)
  {
    FromPos(x, pipe, accepting);
    WireBytes(x);
    var left := OnWire(x)[|pipe.tun|..];
    if left != [] {
      ConcatAssoc(left[0], Flatten(left[1..]), Rest(x));
      NextPacket(left[0], Flatten(left[1..]) + Rest(x), Eof);
      assert false;
    }
  }

  /** A part of the tail holds no packet, and nothing the reader would refuse. */
  lemma TailIsNeverRefused(tail: W.Tail, n: nat, end: End)
    requires HonestTail(tail) && n <= |W.TailBytes(tail)|
    requires tail.PartOf? ==> tail.written < |tail.packet|
    requires tail.FarewellPart? ==> tail.written <= |tail.payload|
    requires end.Eof? ==> W.WholeTail(tail) && n == |W.TailBytes(tail)|
    ensures Next(W.TailBytes(tail)[..n], end).Failed? ==> Next(W.TailBytes(tail)[..n], end).error.Broken?
  {
    match tail
    case Nothing =>
    case PartOf(p, w) =>
      assert p[..w][..n] == p[..n];
      NextTruncated(p, n, end);
    case FarewellPart(g, w) =>
      assert g[..w][..n] == g[..n];
      NextGoodbye(g, n, end);
  }

  lemma RestIsNeverRefused(x: W.Handle, n: nat, end: End)
    requires StreamOk(x) && n <= |Rest(x)| && (end.Eof? ==> W.EndShows(x) && n == |Rest(x)|)
    ensures Next(Rest(x)[..n], end).Failed? ==> Next(Rest(x)[..n], end).error.Broken?
  {
    if x.tail.PartOf? && x.tail.written == |x.tail.packet| {
    } else {
      TailIsNeverRefused(x.tail, n, end);
    }
  }

  /** The reader has all of a well-formed packet, or waits for the rest of it. */
  lemma FrontIsNeverRefused(p: Bytes, s: Bytes, n: nat, end: End)
    requires WellFormed(p) && n <= |p + s| && (end.Eof? ==> n == |p + s|)
    ensures Next((p + s)[..n], end).Failed? ==> Next((p + s)[..n], end).error.Broken?
  {
    if n < |p| {
      assert (p + s)[..n] == p[..n];
      NextTruncated(p, n, end);
    } else {
      assert (p + s)[..n] == p + s[..n - |p|];
      NextPacket(p, s[..n - |p|], end);
    }
  }

  /** Framing never goes wrong: of whatever part of the stream has been delivered, the reader makes a packet, or waits
      for more, or reaches a clean end. Only a socket can fail it. */
  lemma ContentNeverFails(x: W.Handle, pipe: Pipe, accepting: bool, avail: nat, end: End)
    requires StreamOk(x) && PipeOk(pipe, x, accepting)
    ensures !CanRefuse(pipe, x, avail, end)
  {
    if pipe.pos <= avail <= |x.bytes| && (end.Eof? ==> W.EndShows(x) && avail == |x.bytes|) {
      FromPos(x, pipe, accepting);
      var left, n := OnWire(x)[|pipe.tun|..], avail - pipe.pos;
      var delivered := x.bytes[pipe.pos..avail];
      assert delivered == (Flatten(left) + Rest(x))[..n];
      if left == [] {
        assert delivered == Rest(x)[..n];
        RestIsNeverRefused(x, n, end);
      } else {
        FrontIsNeverRefused(left[0], Flatten(left[1..]) + Rest(x), n, end);
        ConcatAssoc(left[0], Flatten(left[1..]), Rest(x));
      }
    }
  }

}
