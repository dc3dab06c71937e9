/** The two loops that drain a connection into the tunnel: the client's `process_connection`
    and the server's `handle`. */
module Endpoints {
  import opened Wire
  import opened PacketStream
  import Reader = PacketReader

  /** The bits of the handshake's flag byte, named from the client's point of view. */
  datatype Flags = Flags(ingress: bool, egress: bool)

  /** The tun device, as the list of packets handed to it. */
  class TunDevice {
    var packets: seq<Bytes>

    constructor ()
      ensures packets == []
    {
      packets := [];
    }

    method Send(packet: Bytes)
      modifies this
      ensures packets == old(packets) + [packet]
    {
      packets := packets + [packet];
    }
  }

  /** What the server's loop asks of its writer once the client is gone. */
  datatype Farewell = JustClose | ShutdownWith(payload: Bytes)

  /** Of the stream `s`, the packets `read` have been returned and the bytes `rest` are left. */
  ghost predicate HasRead(s: Bytes, end: End, read: seq<Bytes>, rest: Bytes) {
    Packets(s) == read + Packets(rest) && Ending(s, end) == Ending(rest, end)
  }

  lemma ReadOn(s: Bytes, end: End, read: seq<Bytes>, rest: Bytes, packet: Bytes, rest': Bytes)
    requires HasRead(s, end, read, rest) && Next(rest, end) == Packet(packet, rest')
    ensures HasRead(s, end, read + [packet], rest') && |rest'| < |rest|
  {
    ReadCons(packet, rest', end);
    ConcatAssoc(read, [packet], Packets(rest'));
  }

  lemma ReadAll(s: Bytes, end: End, read: seq<Bytes>, rest: Bytes)
    requires HasRead(s, end, read, rest) && !Next(rest, end).Packet?
    ensures Packets(s) == read && Ending(s, end) == Next(rest, end)
  {
    assert Packets(rest) == [];
  }

  /** Reads until the stream stops and forwards every packet the direction allows. */
  method Drain(reader: Reader.PacketReader, accepting: bool, tunnel: TunDevice) returns (graceful: bool)
    requires reader.Valid()
    modifies reader, reader.buf, reader.connection`pending, tunnel
    ensures tunnel.packets == old(tunnel.packets) + if accepting then Packets(old(reader.Remaining())) else []
    ensures graceful <==> Ending(old(reader.Remaining()), reader.connection.end).Finished?
  {
    ghost var stream, end, before := reader.Remaining(), reader.connection.end, tunnel.packets;
    ghost var read: seq<Bytes>, rest := [], stream;
    while true
      invariant reader.Valid() && rest == reader.Remaining() && HasRead(stream, end, read, rest)
      invariant tunnel.packets == if accepting then before + read else before
      decreases |rest|
    {
      var result := reader.Read();
      match result {
        case Closed =>
          ReadAll(stream, end, read, rest);
          return true;
        case ReadFailed(_) =>
          ReadAll(stream, end, read, rest);
          return false;
        case GotPacket(packet) =>
          if accepting {
            tunnel.Send(packet);
          }
          ReadOn(stream, end, read, rest, packet, reader.Remaining());
          ConcatAssoc(before, read, [packet]);
          read, rest := read + [packet], reader.Remaining();
      }
    }
  }

  /** The client's reader task; its result says whether the writer is shut down in turn. */
  method ProcessConnection(reader: Reader.PacketReader, flags: Flags, tunnel: TunDevice) returns (graceful: bool)
    requires reader.Valid()
    modifies reader, reader.buf, reader.connection`pending, tunnel
    ensures tunnel.packets == old(tunnel.packets) + if flags.ingress then Packets(old(reader.Remaining())) else []
    ensures graceful <==> Ending(old(reader.Remaining()), reader.connection.end).Finished?
  {
    graceful := Drain(reader, flags.ingress, tunnel);
  }

  /** The server's reader task: an orderly end is answered with a goodbye, an error is not. */
  method HandleConnection(reader: Reader.PacketReader, flags: Flags, tunnel: TunDevice, randomPayload: Bytes)
    returns (farewell: Farewell)
    requires reader.Valid()
    requires 200 <= |randomPayload| <= MTU - 3
    modifies reader, reader.buf, reader.connection`pending, tunnel
    ensures tunnel.packets == old(tunnel.packets) + if flags.egress then Packets(old(reader.Remaining())) else []
    ensures farewell.ShutdownWith? <==> Ending(old(reader.Remaining()), reader.connection.end).Finished?
    ensures farewell.ShutdownWith? ==> IsGoodbye(farewell.payload)
  {
    var graceful := Drain(reader, flags.egress, tunnel);
    if !graceful {
      return JustClose;
    }
    return ShutdownWith(Goodbye(randomPayload));
  }
}
