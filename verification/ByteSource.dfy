/** A socket: the bytes its peer will still deliver and how that stream stops, and the bytes written to it.
    Each read hands over an arbitrary nonempty part of what is to come, so a contract proved over this class
    holds for every way the network chops the stream. While a handshake is going on a timer runs, and only some of
    those bytes come before it fires. */
module ByteSource {
  import opened Wire

  datatype ReadResult = Data(chunk: Bytes) | EndOfFile | IoError

  /** What comes after the bytes that are in time: the end of the stream, in time too; or nothing before the timer
      fires. */
  datatype Stop = Ends(end: End) | Stalls

  class Connection {
    var pending: Bytes
    const end: End
    /** How many more bytes there is time for. */
    var prompt: nat
    /** What the last timed read brought. */
    ghost var lastChunk: Bytes

    var written: Bytes
    var shut: bool
    /** How many writes and shutdowns have failed. */
    var failures: nat

    constructor (pending: Bytes, end: End, prompt: nat)
      ensures this.pending == pending && this.end == end && this.prompt == prompt
      ensures written == [] && !shut && failures == 0
    {
      this.pending := pending;
      this.end := end;
      this.prompt := prompt;
      lastChunk := [];
      written := [];
      shut := false;
      failures := 0;
    }

    /** The bytes to come before the timer fires. */
    ghost function InTime(): Bytes
      reads this`pending, this`prompt
    {
      pending[..Min(prompt, |pending|)]
    }

    ghost function Late(): Bytes
      reads this`pending, this`prompt
    {
      pending[Min(prompt, |pending|)..]
    }

    ghost function StopsWith(): Stop
      reads this`pending, this`prompt
    {
      if prompt <= |pending| then Stalls else Ends(end)
    }

    method Read(limit: nat) returns (r: ReadResult)
      requires 0 < limit
      modifies this`pending
      ensures r.Data? ==> 0 < |r.chunk| <= limit && old(pending) == r.chunk + pending
      ensures r.EndOfFile? ==> old(pending) == pending == [] && end.Eof?
      ensures r.IoError? ==> old(pending) == pending == [] && end.Fault?
    {
      if pending == [] {
        r := if end.Eof? then EndOfFile else IoError;
      } else {
        var size :| 0 < size <= limit && size <= |pending|;
        r := Data(pending[..size]);
        pending := pending[size..];
      }
    }

    /** A read into a growing buffer takes whatever its spare capacity allows; None when the timer fires first. */
    method ReadBuf() returns (r: Option<ReadResult>)
      modifies this`pending, this`prompt, this`lastChunk
      ensures StopsWith() == old(StopsWith()) && Late() == old(Late())
      ensures old(InTime()) == lastChunk + InTime() && old(pending) == lastChunk + pending
      ensures r.None? <==> old(InTime()) == [] && StopsWith().Stalls?
      ensures r.Some? && r.value.Data? ==> r.value.chunk == lastChunk != []
      ensures r.Some? && !r.value.Data? ==>
        old(pending) == lastChunk == [] && StopsWith() == Ends(end)
        && r.value == if end.Eof? then EndOfFile else IoError
      ensures r.None? ==> lastChunk == []
    {
      lastChunk := [];
      if prompt == 0 {
        return None;
      }
      if pending == [] {
        return Some(if end.Eof? then EndOfFile else IoError);
      }
      var spare :| 0 < spare;
      var size :| 0 < size <= spare && size <= prompt && size <= |pending|;
      var chunk := pending[..size];
      lastChunk := chunk;
      pending, prompt := pending[size..], prompt - size;
      return Some(Data(chunk));
    }

    /** `read_exact`. */
    method ReadExact(size: nat) returns (r: Option<Bytes>)
      modifies this`pending
      ensures r.Some? <==> size <= |old(pending)|
      ensures r.Some? ==> |r.value| == size && old(pending) == r.value + pending
    {
      var data: Bytes := [];
      while |data| < size
        invariant |data| <= size && old(pending) == data + pending
      {
        var chunk := Read(size - |data|);
        if !chunk.Data? {
          return None;
        }
        data := data + chunk.chunk;
      }
      return Some(data);
    }

    /** `write_all`. Each call may fail, whatever became of those before; one that fails may still write a part. */
    method WriteAll(data: Bytes) returns (ok: bool)
      modifies this`written, this`failures
      ensures failures == old(failures) + (if ok then 0 else 1)
      ensures ok ==> written == old(written) + data
      ensures old(written) <= written <= old(written) + data
    {
      ok :| ok || !ok;
      if ok {
        written := written + data;
      } else {
        var n :| 0 <= n <= |data|;
        written := written + data[..n];
        failures := failures + 1;
      }
    }

    method Shutdown() returns (ok: bool)
      modifies this`shut, this`failures
      ensures failures == old(failures) + (if ok then 0 else 1)
      ensures shut == (old(shut) || ok)
    {
      ok :| ok || !ok;
      if ok {
        shut := true;
      } else {
        failures := failures + 1;
      }
    }
  }
}
