/** The data path of the UDP transport, src/transport/udp/mod.rs: marker, securer, size limits, keep-alives. */
module UdpTransport {
  import opened Wire
  import opened PacketStream
  import opened Endpoints
  import opened Securer
  import opened UdpLink

  /** The largest datagram: what fits an unfragmented IPv4 packet. */
  const MAX_DATAGRAM: nat := MTU - IPV4_HEADER_SIZE - UDP_HEADER_SIZE

  // ---------------------------------------------------------------- the marker

  /** Bit 4 of the first byte, zero in every IP packet. */
  const MARKER: nat := 16

  predicate HasMarker(b: byte) {
    b / MARKER % 2 == 1
  }

  function SetMarker(b: byte): (r: byte)
    ensures HasMarker(r) && r % MARKER == b % MARKER && r / (2 * MARKER) == b / (2 * MARKER)
  {
    if HasMarker(b) then b else b + MARKER
  }

  function ClearMarker(b: byte): (r: byte)
    ensures !HasMarker(r) && r % MARKER == b % MARKER && r / (2 * MARKER) == b / (2 * MARKER)
  {
    if HasMarker(b) then b - MARKER else b
  }

  function Mark(packet: Bytes, hears: bool): Bytes
    requires packet != []
  {
    if hears then packet[0 := SetMarker(packet[0])] else packet
  }

  function Unmark(payload: Bytes): Bytes
    requires payload != []
  {
    payload[0 := ClearMarker(payload[0])]
  }

  function KeepAlive(hears: bool): Bytes {
    [if hears then MARKER else 0]
  }

  /** What an IP packet looks like to this transport. */
  predicate IsIp(packet: Bytes) {
    1 < |packet| && (packet[0] / 16 == 4 || packet[0] / 16 == 6)
  }

  lemma UnmarkMark(packet: Bytes, hears: bool)
    requires packet != [] && !HasMarker(packet[0])
    ensures Unmark(Mark(packet, hears)) == packet && HasMarker(Mark(packet, hears)[0]) == hears
  {
    var b := packet[0];
    assert ClearMarker(SetMarker(b)) == b;
  }

  // ---------------------------------------------------------------- a datagram, sent and received

  /** The secrets of a peer's securer: its ciphers and its session; None for the insecure transport. */
  datatype Session = Session(crypto: Crypto, id: nat)

  function Outgoing(session: Option<Session>, timestamp: nat, packetId: nat, payload: Bytes): Bytes {
    match session
    case None => payload
    case Some(s) => Encrypted(s.crypto, s.id, timestamp, packetId, payload)
  }

  /** What a received datagram means: the sender's ingress state, and a packet or a keep-alive. */
  datatype Incoming = Ignored | Heard(egressWorks: bool, packet: Bytes)

  function PayloadOf(crypto: Option<Crypto>, datagram: Bytes, now: nat): Option<Bytes> {
    match crypto
    case None => Some(datagram)
    case Some(c) =>
      var r := Decryption(c, datagram, now);
      if r.Payload? then Some(r.data) else None
  }

  function Accept(crypto: Option<Crypto>, fromPeer: bool, datagram: Bytes, now: nat): Incoming {
    if (crypto.Some? && !fromPeer) || datagram == [] || MAX_DATAGRAM < |datagram| then Ignored
    else
      match PayloadOf(crypto, datagram, now)
      case None => Ignored
      case Some(payload) => if payload == [] then Ignored else Heard(HasMarker(payload[0]), Unmark(payload))
  }

  ghost predicate SameSecret(session: Option<Session>, crypto: Option<Crypto>) {
    session.Some? == crypto.Some? && (session.Some? ==> session.value.crypto == crypto.value && IsU64(session.value.id))
  }

  /** Round trip: a payload whose first byte has room for the marker arrives, with the marker's value and without the
      bit, exactly when it fits and, if secured, comes from the peer's address with a timestamp that is still in the
      window. */
  lemma PayloadRoundTrip(session: Option<Session>, crypto: Option<Crypto>, timestamp: nat, packetId: nat,
    payload: Bytes, hears: bool, fromPeer: bool, now: nat)
    requires SameSecret(session, crypto) && (crypto.Some? ==> Securer.Sound(crypto.value)) && timestamp < Securer.U32
    requires payload != [] && !HasMarker(payload[0])
    ensures Accept(crypto, fromPeer, Outgoing(session, timestamp, packetId, Mark(payload, hears)), now) ==
            if crypto.None? then (if |payload| <= 1472 then Heard(hears, payload) else Ignored)
            else if |payload| <= 1440 && fromPeer && -20 <= timestamp - now <= 10 then Heard(hears, payload)
            else Ignored
  {
    UnmarkMark(payload, hears);
    if session.Some? {
      DecryptEncrypted(crypto.value, session.value.id, timestamp, packetId, Mark(payload, hears), now);
    }
  }

  /** The marker in bits: the fifth of the first byte, which is zero in every IP packet, is set, and nothing else is
      touched; a keep-alive is that bit alone. */
  lemma MarkedBytes(packet: Bytes)
    requires IsIp(packet)
    ensures !HasMarker(packet[0]) && Mark(packet, false) == packet
    ensures Mark(packet, true)[0] == packet[0] + 16 && Mark(packet, true)[1..] == packet[1..]
    ensures KeepAlive(true) == [16] && KeepAlive(false) == [0]
  {
  }

  /** Every IP packet within the limit gets through unchanged, together with the sender's ingress state; a keep-alive
      brings the state alone; and neither is ever taken for the other. */
  lemma DataPathRoundTrip(session: Option<Session>, crypto: Option<Crypto>, timestamp: nat, packetId: nat,
    packet: Bytes, hears: bool, now: nat)
    requires SameSecret(session, crypto) && (crypto.Some? ==> Securer.Sound(crypto.value)) && timestamp < Securer.U32
    requires IsIp(packet) && |packet| <= (if crypto.Some? then 1440 else 1472)
    requires crypto.Some? ==> -20 <= timestamp - now <= 10
    ensures Accept(crypto, true, Outgoing(session, timestamp, packetId, Mark(packet, hears)), now)
      == Heard(hears, packet)
    ensures Accept(crypto, true, Outgoing(session, timestamp, packetId, KeepAlive(hears)), now)
            == Heard(hears, KeepAlive(false))
    ensures 1 < |packet| && |KeepAlive(false)| == 1
  {
    PayloadRoundTrip(session, crypto, timestamp, packetId, packet, hears, true, now);
    PayloadRoundTrip(session, crypto, timestamp, packetId, KeepAlive(false), hears, true, now);
    assert Mark(KeepAlive(false), hears) == KeepAlive(hears);
  }

  // ---------------------------------------------------------------- the transport

  class UdpTransport {
    const securer: UdpConnectionSecurer?
    const tunnel: TunDevice
    var link: Link
    var permit: bool
    var receivedPackets: nat

    ghost predicate Valid()
      reads this, securer
    {
      securer != null ==> securer.Valid()
    }

    constructor (securer: UdpConnectionSecurer?, tunnel: TunDevice)
      requires securer != null ==> securer.Valid()
      ensures Valid() && this.securer == securer && this.tunnel == tunnel
      ensures link == Link(None, None, false) && !permit && receivedPackets == 0
    {
      this.securer := securer;
      this.tunnel := tunnel;
      link := Link(None, None, false);
      permit := false;
      receivedPackets := 0;
    }

    function Ciphers(): Option<Crypto> {
      if securer == null then None else Some(securer.crypto)
    }

    /** `on_ingress_packet`: the link state, and a wake-up for the pinger if this is the first packet after
        a silence. */
    method OnIngressPacket(egressWorks: bool, now: nat)
      modifies this`link, this`permit
      ensures link == OnIngress(old(link), egressWorks, now)
      ensures permit == (old(permit) || !Fresh(old(link), now))
      ensures link.needsAck && !old(link.needsAck) ==> permit
    {
      var isFirstPacket := false;
      match link.lastIngress {
        case Some(lastPacket) =>
          if TimedOut(lastPacket, now) {
            isFirstPacket := true;
          }
        case None =>
          isFirstPacket := true;
      }
      if isFirstPacket {
        link := link.(needsAck := true);
      }
      link := link.(lastIngress := Some(Ingress(now, egressWorks)));
      if isFirstPacket {
        permit := true;
      }
    }

    /** One round of the receiver loop, after `size` bytes have come in from the socket. `now` is in milliseconds. */
    method HandleDatagram(buf: array<byte>, size: nat, fromPeer: bool, now: nat)
      requires Valid() && size <= buf.Length == MAX_DATAGRAM + 1
      modifies this, buf, tunnel
      modifies if securer == null then {} else {securer}
      ensures Valid()
      ensures var incoming := Accept(Ciphers(), fromPeer, old(buf[..size]), now / 1000);
        if incoming.Ignored? then
          link == old(link) && tunnel.packets == old(tunnel.packets) && receivedPackets == old(receivedPackets)
        else
          && link == OnIngress(old(link), incoming.egressWorks, now)
          && (|incoming.packet| == 1 ==>
                tunnel.packets == old(tunnel.packets) && receivedPackets == old(receivedPackets))
          && (|incoming.packet| != 1 ==>
                tunnel.packets == old(tunnel.packets) + [incoming.packet]
                  && receivedPackets == old(receivedPackets) + 1)
    {
      if securer != null && !fromPeer {
        return;
      }
      if size == 0 || MAX_DATAGRAM < size {
        return;
      }
      ghost var datagram := buf[..size];
      assert |datagram| == size;
      var from, to := 0, size;
      if securer != null {
        var decrypted := securer.Decrypt(buf, size, now / 1000);
        if !decrypted.Payload? {
          return;
        }
        from, to := HEADER_SIZE, size - TAG_SIZE;
      }
      ghost var payload := buf[from..to];
      assert PayloadOf(Ciphers(), datagram, now / 1000) == Some(payload);

      var egressWorks := HasMarker(buf[from]);
      buf[from] := ClearMarker(buf[from]);
      assert buf[from..to] == Unmark(payload);
      OnIngressPacket(egressWorks, now);
      if to - from == 1 {
        return;
      }
      receivedPackets := receivedPackets + 1;
      tunnel.Send(buf[from..to]);
    }

    /** `send`: marks the packet in place and turns it into a datagram; the egress time counts even if the socket
        fails. */
    method SendPacket(packet: array<byte>, now: nat) returns (datagram: Bytes)
      requires Valid() && 0 < packet.Length && now / 1000 < Securer.U32
      modifies this`link, packet
      modifies if securer == null then {} else {securer}
      ensures Valid() && link == old(link).(lastEgress := Some(now))
      ensures packet[..] == Mark(old(packet[..]), Fresh(old(link), now))
      ensures datagram ==
              Outgoing(if securer == null then None else Some(Session(securer.crypto, securer.sessionId)), now / 1000,
                       if securer == null then 0 else old(securer.packetId), packet[..])
    {
      ghost var plain := packet[..];
      if link.lastIngress.Some? && !TimedOut(link.lastIngress.value, now) {
        packet[0] := SetMarker(packet[0]);
      }
      assert packet[..] == Mark(plain, Fresh(link, now));
      if securer != null {
        datagram := securer.Encrypt(packet[..], now / 1000);
      } else {
        datagram := packet[..];
      }
      link := link.(lastEgress := Some(now));
    }
  }
}
