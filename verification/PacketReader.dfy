/** The buffered packet reader of src/transport/http/common.rs, proved to return exactly
    what `PacketStream.Next` says of the bytes it has not returned yet. */
module PacketReader {
  import opened Wire
  import opened PacketStream
  import opened ByteSource

  /** The answer of `ReadData`: `Ok(true)`, `Ok(false)` or an error. */
  datatype Filled = Full | Empty | Interrupted(error: ReadError)

  datatype Result = GotPacket(data: Bytes) | Closed | ReadFailed(error: ReadError)

  class PacketReader {
    const buf: array<byte>
    var dataSize: nat
    var packetSize: Option<nat>
    var prereadData: Option<Bytes>
    const connection: Connection

    ghost predicate Consistent()
      reads this, buf
    {
      buf.Length == MTU && dataSize <= MTU && (prereadData.Some? ==> prereadData.value != [])
    }

    /** Between two `Read` calls, and wherever a call may be interrupted. */
    ghost predicate Valid()
      reads this, buf
    {
      && Consistent()
      && match packetSize
         case None => dataSize <= LENGTH_PREFIX
         case Some(size) => LENGTH_PREFIX <= dataSize <= size && buf[0] != 0 && IpSize(buf[..dataSize]) == Some(size)
    }

    ghost function Unbuffered(): Bytes
      reads this, connection
    {
      (if prereadData.Some? then prereadData.value else []) + connection.pending
    }

    /** Every byte that was received or will be, and that no returned packet contains. */
    ghost function Remaining(): Bytes
      requires dataSize <= buf.Length
      reads this, buf, connection
    {
      buf[..dataSize] + Unbuffered()
    }

    constructor (prereadData: Bytes, connection: Connection)
      ensures Valid() && fresh(this) && fresh(buf) && this.connection == connection
      ensures Remaining() == prereadData + connection.pending
    {
      buf := new byte[MTU](_ => 0);
      dataSize := 0;
      packetSize := None;
      this.prereadData := if prereadData == [] then None else Some(prereadData);
      this.connection := connection;
    }

    /** The next bytes to buffer, at most `limit`: from the data left over by the handshake while there is any. */
    method Receive(limit: nat) returns (r: ReadResult)
      requires Consistent() && 0 < limit
      modifies this`prereadData, connection`pending
      ensures Consistent()
      ensures r.Data? ==> 0 < |r.chunk| <= limit && old(Unbuffered()) == r.chunk + Unbuffered()
      ensures !r.Data? ==> old(Unbuffered()) == Unbuffered() == []
      ensures !r.Data? ==> r == if connection.end.Eof? then EndOfFile else IoError
    {
      match prereadData
      case Some(data) =>
        var readSize := Min(limit, |data|);
        prereadData := if readSize == |data| then None else Some(data[readSize..]);
        assert data == data[..readSize] + data[readSize..];
        r := Data(data[..readSize]);
      case None =>
        r := connection.Read(limit);
    }

    method Append(chunk: Bytes)
      requires Consistent() && dataSize + |chunk| <= MTU
      modifies this`dataSize, buf
      ensures Consistent() && dataSize == old(dataSize) + |chunk|
      ensures buf[..dataSize] == old(buf[..dataSize]) + chunk
    {
      forall i | 0 <= i < |chunk| {
        buf[dataSize + i] := chunk[i];
      }
      dataSize := dataSize + |chunk|;
    }

    /** Fills the buffer up to `size` bytes. */
    method ReadData(size: nat) returns (r: Filled)
      requires Consistent() && size <= MTU
      modifies this`dataSize, this`prereadData, buf, connection`pending
      ensures Consistent()
      ensures old(buf[..dataSize]) <= buf[..dataSize]
      ensures Remaining() == old(Remaining())
      ensures r.Full? ==> dataSize == Max(old(dataSize), size)
      ensures !r.Full? ==> |Remaining()| == dataSize < size
      ensures r.Empty? ==> connection.end.Eof? && dataSize == 0
      ensures r.Interrupted? ==> Short(dataSize, connection.end) == Failed(r.error)
    {
      while dataSize < size
        invariant Consistent() && dataSize <= Max(old(dataSize), size)
        invariant old(buf[..dataSize]) <= buf[..dataSize]
        invariant Remaining() == old(Remaining())
      {
        var result := Receive(size - dataSize);
        match result {
          case Data(chunk) =>
            ConcatAssoc(buf[..dataSize], chunk, Unbuffered());
            Append(chunk);
          case EndOfFile =>
            return if dataSize == 0 then Empty else Interrupted(UnexpectedClose);
          case IoError =>
            return Interrupted(Broken);
        }
      }
      return Full;
    }

    /** The rest of a fake HTTP response, which must be followed by the end of the stream. */
    method FinishGoodbye() returns (r: Result)
      requires Consistent() && packetSize.None? && dataSize == LENGTH_PREFIX && buf[0] == 0
      modifies this, buf, connection`pending
      ensures !r.GotPacket?
      ensures r.Closed? ==> Next(old(Remaining()), connection.end) == Finished
      ensures r.ReadFailed? ==> Next(old(Remaining()), connection.end) == Failed(r.error)
    {
      ghost var stream := Remaining();
      var size := 3 + U16(buf[1], buf[2]);
      assert stream[..LENGTH_PREFIX] == buf[..LENGTH_PREFIX];
      assert stream[0] == buf[0] && stream[1] == buf[1] && stream[2] == buf[2];
      if size > buf.Length {
        return ReadFailed(BadGoodbyeSize);
      }
      var filled := ReadData(size);
      assert !filled.Empty?;
      if filled.Interrupted? {
        return ReadFailed(filled.error);
      }
      dataSize := 0;
      filled := ReadData(1);
      if filled.Interrupted? {
        return ReadFailed(filled.error);
      }
      return if filled.Full? then ReadFailed(GoodbyeNotLast) else Closed;
    }

    /** Reads the length field of the header in the buffer. */
    method ParseHeader() returns (failure: Option<ReadError>)
      requires Consistent() && packetSize.None? && dataSize == LENGTH_PREFIX && buf[0] != 0
      modifies this`packetSize
      ensures failure.Some? ==> Next(Remaining(), connection.end) == Failed(failure.value)
      ensures failure.None? ==> Valid() && packetSize.Some?
    {
      ghost var stream := Remaining();
      assert forall i :: 0 <= i < LENGTH_PREFIX ==> stream[i] == buf[i];
      var size;
      match buf[0] / 16 {
        case 4 =>
          size := U16(buf[2], buf[3]);
          if size < IPV4_HEADER_SIZE || size > buf.Length { return Some(BadPacketSize); }
        case 6 =>
          size := U16(buf[4], buf[5]) + IPV6_HEADER_SIZE;
          if size < IPV6_HEADER_SIZE || size > buf.Length { return Some(BadPacketSize); }
        case _ =>
          return Some(BadVersion);
      }
      packetSize := Some(size);
      return None;
    }

    /** With the length known, the next item is that many bytes, or whatever cut the stream short. */
    ghost function Expected(): Item
      requires Valid()
      reads this, buf, connection
    {
      Next(Remaining(), connection.end)
    }

    lemma ExpectedOnceSized()
      requires Valid() && packetSize.Some?
      ensures Expected() == if |Remaining()| < packetSize.value then Short(|Remaining()|, connection.end)
                            else Packet(Remaining()[..packetSize.value], Remaining()[packetSize.value..])
    {
      assert forall i :: 0 <= i < LENGTH_PREFIX ==> Remaining()[i] == buf[i] == buf[..dataSize][i];
    }

    /** Hands out the packet that fills the buffer. */
    method TakePacket() returns (packet: Bytes)
      requires Consistent() && packetSize.Some? && dataSize == packetSize.value
      modifies this`packetSize, this`dataSize
      ensures Valid() && |packet| == old(packetSize).value
      ensures old(Remaining()) == packet + Remaining()
    {
      packet := buf[..packetSize.value];
      packetSize := None;
      dataSize := 0;
      assert Remaining() == Unbuffered();
    }

    /** The next packet of the stream, its orderly end, or an error: always the item `Next` gives for the bytes at
        hand. */
    method Read() returns (r: Result)
      requires Valid()
      modifies this, buf, connection`pending
      ensures r.GotPacket? ==> Valid() && old(Expected()) == Packet(r.data, Remaining())
      ensures r.Closed? ==> old(Expected()) == Finished
      ensures r.ReadFailed? ==> old(Expected()) == Failed(r.error)
    {
      ghost var stream := Remaining();
      while true
        invariant Valid() && Remaining() == stream
        decreases if packetSize.None? then 1 else 0
      {
        if packetSize.Some? { ExpectedOnceSized(); }
        var filled := ReadData(if packetSize.Some? then packetSize.value else LENGTH_PREFIX);
        match filled {
          case Empty => return Closed;
          case Interrupted(error) => return ReadFailed(error);
          case Full =>
        }

        if packetSize.Some? {
          var packet := TakePacket();
          assert stream[..|packet|] == packet && stream[|packet|..] == Remaining();
          return GotPacket(packet);
        }

        if buf[0] == 0 {
          r := FinishGoodbye();
          return;
        }

        var failure := ParseHeader();
        if failure.Some? {
          return ReadFailed(failure.value);
        }
      }
    }
  }
}
