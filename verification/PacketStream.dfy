/** The packet stream as a function of its bytes: what a reader must return for a given
    byte sequence and end, whatever the chunking. */
module PacketStream {
  import opened Wire

  /** The number of bytes the reader always collects before it looks at a length field. */
  const LENGTH_PREFIX: nat := 6

  datatype ReadError =
    | UnexpectedClose
    | Broken
    | BadGoodbyeSize
    | GoodbyeNotLast
    | BadVersion
    | BadPacketSize

  /** What one `read` call yields: a packet and the bytes after it, a regular end, or an error. */
  datatype Item =
    | Packet(data: Bytes, rest: Bytes)
    | Finished
    | Failed(error: ReadError)

  /** An IPv4 packet whose Total Length, or an IPv6 packet whose Payload Length, describes
      exactly the bytes at hand, and which fits the MTU (section 3.1 of RFC 791, section 3 of RFC 8200). */
  predicate WellFormed(p: Bytes) {
    && LENGTH_PREFIX <= |p| <= MTU
    && ((p[0] / 16 == 4 && IPV4_HEADER_SIZE <= |p| == U16(p[2], p[3]))
        || (p[0] / 16 == 6 && |p| == U16(p[4], p[5]) + IPV6_HEADER_SIZE))
  }

  ghost predicate AllWellFormed(ps: seq<Bytes>) {
    forall i :: 0 <= i < |ps| ==> WellFormed(ps[i])
  }

  /** The fake HTTP response that precedes a server's shutdown: a zero byte, a u16 payload size, the payload. */
  predicate IsGoodbye(g: Bytes) {
    LENGTH_PREFIX <= |g| <= MTU && g[0] == 0 && 3 + U16(g[1], g[2]) == |g|
  }

  function Goodbye(payload: Bytes): (g: Bytes)
    requires 200 <= |payload| <= MTU - 3
    ensures IsGoodbye(g)
  {
    [0] + PutU16(|payload|) + payload
  }

  /** The outcome when the stream stops before the bytes being waited for: `held` bytes are already buffered. */
  function Short(held: nat, end: End): Item {
    if end.Fault? then Failed(Broken)
    else if held == 0 then Finished
    else Failed(UnexpectedClose)
  }

  /** The size announced by the first six bytes of an IP packet, if they can start one. */
  function IpSize(s: Bytes): Option<nat>
    requires LENGTH_PREFIX <= |s|
  {
    if s[0] / 16 == 4 then
      var size := U16(s[2], s[3]);
      if IPV4_HEADER_SIZE <= size <= MTU then Some(size) else None
    else if s[0] / 16 == 6 then
      var size := U16(s[4], s[5]) + IPV6_HEADER_SIZE;
      if size <= MTU then Some(size) else None
    else None
  }

  /** The next item of a stream that will deliver exactly the bytes `s` and then `end`. */
  function Next(s: Bytes, end: End): (item: Item)
    ensures item.Packet? ==> WellFormed(item.data) && s == item.data + item.rest
  {
    if |s| < LENGTH_PREFIX then Short(|s|, end)
    else if s[0] == 0 then
      var size := 3 + U16(s[1], s[2]);
      if size > MTU then Failed(BadGoodbyeSize)
      else if |s| < size then Short(|s|, end)
      else if |s| > Max(size, LENGTH_PREFIX) then Failed(GoodbyeNotLast)
      else Short(0, end)
    else
      match IpSize(s)
      case None => if s[0] / 16 == 4 || s[0] / 16 == 6 then Failed(BadPacketSize) else Failed(BadVersion)
      case Some(size) => if |s| < size then Short(|s|, end) else Packet(s[..size], s[size..])
  }

  /** Every packet a reader returns before it stops. */
  function Packets(s: Bytes): seq<Bytes>
    decreases |s|
  {
    match Next(s, Fault)
    case Packet(data, rest) => [data] + Packets(rest)
    case _ => []
  }

  /** How the reader stops. */
  function Ending(s: Bytes, end: End): (last: Item)
    ensures !last.Packet?
    decreases |s|
  {
    match Next(s, end)
    case Packet(data, rest) => Ending(rest, end)
    case last => last
  }

  /** A well-formed packet at the front of a stream is always the next item, whatever follows it. */
  lemma NextPacket(p: Bytes, s: Bytes, end: End)
    requires WellFormed(p)
    ensures Next(p + s, end) == Packet(p, s)
  {
    assert (p + s)[..|p|] == p && (p + s)[|p|..] == s;
    assert IpSize(p + s) == Some(|p|);
  }

  /** A packet that has not arrived completely is never returned, not even in part. */
  lemma NextTruncated(p: Bytes, n: nat, end: End)
    requires WellFormed(p) && n < |p|
    ensures Next(p[..n], end) == Short(n, end)
  {
    if LENGTH_PREFIX <= n {
      assert IpSize(p[..n]) == Some(|p|);
    }
  }

  /** A goodbye ends the stream, and no part of it is ever taken for a packet. */
  lemma NextGoodbye(g: Bytes, n: nat, end: End)
    requires IsGoodbye(g) && n <= |g|
    ensures Next(g[..n], end) == Short(if n == |g| then 0 else n, end)
  {
    if LENGTH_PREFIX <= n {
      assert g[..n][0] == 0 && g[..n][1] == g[1] && g[..n][2] == g[2];
    }
  }

  lemma ReadCons(p: Bytes, s: Bytes, end: End)
    requires WellFormed(p)
    ensures Packets(p + s) == [p] + Packets(s)
    ensures Ending(p + s, end) == Ending(s, end)
  {
    NextPacket(p, s, Fault);
    NextPacket(p, s, end);
  }

  lemma {:induction false} PacketsWellFormed(s: Bytes)
    ensures AllWellFormed(Packets(s))
    decreases |s|
  {
    match Next(s, Fault)
    case Packet(data, rest) => PacketsWellFormed(rest);
    case _ =>
  }

  /** Serialising packets and reading them back gives the same packets; what follows is read as if it stood alone. */
  lemma {:induction false} ReadFlatten(ps: seq<Bytes>, tail: Bytes, end: End)
    requires AllWellFormed(ps)
    ensures Packets(Flatten(ps) + tail) == ps + Packets(tail)
    ensures Ending(Flatten(ps) + tail, end) == Ending(tail, end)
  {
    if ps == [] {
      assert Flatten(ps) + tail == tail;
    } else {
      var p, rest := ps[0], ps[1..];
      ReadFlatten(rest, tail, end);
      ConcatAssoc(p, Flatten(rest), tail);
      ReadCons(p, Flatten(rest) + tail, end);
      assert [p] + rest == ps;
      ConcatAssoc([p], rest, Packets(tail));
    }
  }

  lemma PrefixUnder(a: Bytes, b: Bytes, c: Bytes)
    requires b <= c
    ensures a + b <= a + c && (a + c)[|a + b|..] == c[|b|..]
  {
  }

  /** The inverse direction: the packets read from a stream are exactly the bytes it starts with, and the reader
      stops on the first bytes that are no packet. */
  lemma {:induction false} FlattenPackets(s: Bytes, end: End)
    ensures Flatten(Packets(s)) <= s
    ensures Ending(s, end) == Next(s[|Flatten(Packets(s))|..], end)
    decreases |s|
  {
    match Next(s, Fault)
    case Packet(data, rest) =>
      FlattenPackets(rest, end);
      ReadCons(data, rest, end);
      FlattenCons(data, Packets(rest));
      PrefixUnder(data, Flatten(Packets(rest)), rest);
    case _ =>
      assert s[0..] == s;
  }

  /** Reading is monotone: more bytes never retract or alter a packet already returned. */
  lemma {:induction false} PacketsMonotone(s: Bytes, t: Bytes)
    requires s <= t
    ensures Packets(s) <= Packets(t)
    decreases |s|
  {
    match Next(s, Fault)
    case Packet(data, rest) =>
      var more := t[|s|..];
      assert t == data + (rest + more);
      ReadCons(data, rest + more, Fault);
      PacketsMonotone(rest, rest + more);
    case _ =>
  }

  /** A packet that describes itself correctly but exceeds the MTU is never returned: it ends the stream with an
      error. */
  lemma OversizedIsRefused(p: Bytes, s: Bytes, end: End)
    requires MTU < |p|
    requires (p[0] / 16 == 4 && |p| == U16(p[2], p[3])) || (p[0] / 16 == 6 && |p| == U16(p[4], p[5]) + IPV6_HEADER_SIZE)
    ensures Next(p + s, end) == Failed(BadPacketSize) && Packets(p + s) == []
  {
    assert forall i :: 0 <= i < LENGTH_PREFIX ==> (p + s)[i] == p[i];
  }

  // ---------------------------------------------------------------- what the bytes say

  /** An IPv4 header with the Total Length `n`: the reader takes exactly the next `n` bytes for a packet, waits for
      them, or refuses the length. */
  lemma Ipv4Header(s: Bytes, n: nat, end: End)
    requires 6 <= |s| && s[0] / 16 == 4 && BigEndian(s[2], s[3], n)
    ensures 20 <= n <= 1500 && n <= |s| ==> Next(s, end) == Packet(s[..n], s[n..])
    ensures 20 <= n <= 1500 && |s| < n ==> Next(s, end) == Failed(if end.Fault? then Broken else UnexpectedClose)
    ensures n < 20 || 1500 < n ==> Next(s, end) == Failed(BadPacketSize)
  {
    assert 256 * (n / 256) + n % 256 == n;
  }

  /** An IPv6 header with the Payload Length `n`. */
  lemma Ipv6Header(s: Bytes, n: nat, end: End)
    requires 6 <= |s| && s[0] / 16 == 6 && BigEndian(s[4], s[5], n)
    ensures n <= 1460 && n + 40 <= |s| ==> Next(s, end) == Packet(s[..n + 40], s[n + 40..])
    ensures n <= 1460 && |s| < n + 40 ==> Next(s, end) == Failed(if end.Fault? then Broken else UnexpectedClose)
    ensures 1460 < n ==> Next(s, end) == Failed(BadPacketSize)
  {
    assert 256 * (n / 256) + n % 256 == n;
  }

  /** A zero byte and a payload size `n`: a goodbye, of which the reader waits for at least six bytes; a clean end if
      the stream ends with it. */
  lemma GoodbyeHeader(s: Bytes, n: nat, end: End)
    requires 6 <= |s| && s[0] == 0 && BigEndian(s[1], s[2], n)
    ensures n <= 1497 && |s| < n + 3 ==> Next(s, end) == Failed(if end.Fault? then Broken else UnexpectedClose)
    ensures 3 <= n <= 1497 && |s| == n + 3 ==> Next(s, end) == if end.Fault? then Failed(Broken) else Finished
    ensures n < 3 && |s| == 6 ==> Next(s, end) == if end.Fault? then Failed(Broken) else Finished
    ensures n <= 1497 && n + 3 < |s| && 6 < |s| ==> Next(s, end) == Failed(GoodbyeNotLast)
    ensures 1497 < n ==> Next(s, end) == Failed(BadGoodbyeSize)
  {
    assert 256 * (n / 256) + n % 256 == n;
  }

  /** Before six bytes are there: a clean end between packets, and nowhere else. */
  lemma FewBytes(s: Bytes, end: End)
    requires |s| < 6
    ensures Next(s, end) ==
            if end.Fault? then Failed(Broken) else if s == [] then Finished else Failed(UnexpectedClose)
  {
  }

  /** Everything else is of a bad version, once six bytes are there. */
  lemma OtherHeader(s: Bytes, end: End)
    requires 6 <= |s| && s[0] != 0 && s[0] / 16 != 4 && s[0] / 16 != 6
    ensures Next(s, end) == Failed(BadVersion)
  {
    assert IpSize(s).None?;
  }

  /** What a tunnel may carry, in numbers: an IPv4 packet of 20 to 1500 bytes or an IPv6 packet of 40 to 1500 bytes
      whose header tells its length. */
  lemma WellFormedMeans(p: Bytes)
    ensures WellFormed(p) <==>
      || (20 <= |p| <= 1500 && p[0] / 16 == 4 && BigEndian(p[2], p[3], |p|))
      || (40 <= |p| <= 1500 && p[0] / 16 == 6 && BigEndian(p[4], p[5], |p| - 40))
  {
  }

  /** And what the server says goodbye with. */
  lemma GoodbyeMeans(payload: Bytes)
    requires 200 <= |payload| <= 1497
    ensures var g := Goodbye(payload);
      && |g| == 3 + |payload| && g[0] == 0 && BigEndian(g[1], g[2], |payload|) && g[3..] == payload
      && Next(g, Eof) == Finished
  {
    var g := Goodbye(payload);
    NextGoodbye(g, |g|, Eof);
    assert g[..|g|] == g;
  }

  /** For every list of packets, well formed or not, and every delivered part of it, what the reader returns and the
      longest well-formed run of sent packets agree as far as both go: a malformed packet spoils only what
      follows it. */
  lemma ReaderFollowsWellFormedRun(ps: seq<Bytes>, k: nat, delivered: Bytes)
    requires k <= |ps| && AllWellFormed(ps[..k])
    requires delivered <= Flatten(ps)
    ensures Packets(delivered) <= ps[..k] || ps[..k] <= Packets(delivered)
  {
    assert ps == ps[..k] + ps[k..];
    FlattenAppend(ps[..k], ps[k..]);
    ReadFlatten(ps[..k], Flatten(ps[k..]), Fault);
    PacketsMonotone(delivered, Flatten(ps));
  }
}
