/** The disguised handshake: the client's request (src/transport/http/client/connection.rs), the server's parser and
    response (src/transport/http/server/server_connection.rs), and the names that pass both. */
module Handshake {
  import opened Wire
  import opened ByteSource
  import opened Endpoints
  import opened Routing

  const STATIC_HEADER_SIZE: nat := 4

  const SUFFIX_TEXT: string := "hiddenlink!"

  function HeaderSuffix(): (r: Bytes)
    ensures |r| == 11
  {
    Ascii(SUFFIX_TEXT)
  }

  function EncodeFlags(flags: Flags): byte {
    (if flags.ingress then 1 else 0) + (if flags.egress then 2 else 0)
  }

  /** `from_bits`: unknown bits are refused. */
  function DecodeFlags(bits: byte): Option<Flags> {
    if bits < 4 then Some(Flags(bits % 2 == 1, bits / 2 == 1)) else None
  }

  const SPACE: byte := 32

  /** Printable ASCII: letters, digits, punctuation and the space. */
  predicate IsPrintable(b: byte) {
    32 <= b <= 126
  }

  predicate Trimmed(name: Bytes) {
    name != [] && name[0] != SPACE && name[|name| - 1] != SPACE
  }

  /** The names the server accepts. */
  predicate ValidName(name: Bytes) {
    Trimmed(name) && forall i :: 0 <= i < |name| ==> IsPrintable(name[i])
  }

  // ---------------------------------------------------------------- the request

  /** What follows the secret: flags, name size, padding size, name, padding, suffix. */
  function EncodeTail(flags: Flags, name: Bytes, padding: Bytes): Bytes
    requires |name| < 256 && |padding| < 65536
  {
    [EncodeFlags(flags), |name|] + PutU16(|padding|) + name + padding + HeaderSuffix()
  }

  datatype HandshakeError = BrokenConnection | UnexpectedEof | TimeIsUp | ProtocolViolation | InvalidFlags | InvalidName

  datatype Parsed = Accepted(name: Bytes, flags: Flags, rest: Bytes) | Rejected(error: HandshakeError)

  function HandshakeSize(s: Bytes): (n: nat)
    requires STATIC_HEADER_SIZE <= |s|
    ensures STATIC_HEADER_SIZE + s[1] <= n
  {
    STATIC_HEADER_SIZE + s[1] + U16(s[2], s[3]) + |HeaderSuffix()|
  }

  /** Why the rest of a request does not come. */
  function Missing(stop: Stop): HandshakeError {
    match stop
    case Stalls => TimeIsUp
    case Ends(Eof) => UnexpectedEof
    case Ends(Fault) => BrokenConnection
  }

  /** The server's reading of the bytes after the secret, as a function of those that come in time and what comes
      then. */
  function ParseTail(s: Bytes, stop: Stop): Parsed {
    var missing := Rejected(Missing(stop));
    if |s| < STATIC_HEADER_SIZE then missing
    else
      var size := HandshakeSize(s);
      if |s| < size then missing
      else if s[size - |HeaderSuffix()|..size] != HeaderSuffix() then Rejected(ProtocolViolation)
      else
        var name := s[STATIC_HEADER_SIZE..STATIC_HEADER_SIZE + s[1]];
        if DecodeFlags(s[0]).None? then Rejected(InvalidFlags)
        else if !ValidName(name) then Rejected(InvalidName)
        else Accepted(name, DecodeFlags(s[0]).value, s[size..])
  }

  /** The server recovers the client's name and flags, and starts reading packets right after the request. */
  lemma ParseEncoded(flags: Flags, name: Bytes, padding: Bytes, body: Bytes, stop: Stop)
    requires |name| < 256 && |padding| < 65536 && ValidName(name)
    ensures ParseTail(EncodeTail(flags, name, padding) + body, stop) == Accepted(name, flags, body)
  {
    var tail := EncodeTail(flags, name, padding);
    var s := tail + body;
    assert s[0] == EncodeFlags(flags) && s[1] == |name| && U16(s[2], s[3]) == |padding|;
    assert HandshakeSize(s) == |tail|;
    assert s[STATIC_HEADER_SIZE..STATIC_HEADER_SIZE + |name|] == name;
    assert s[|tail| - 11..|tail|] == HeaderSuffix();
    assert s[|tail|..] == body;
  }

  /** No part of a request is taken for a whole one. */
  lemma ParseCut(flags: Flags, name: Bytes, padding: Bytes, n: nat, stop: Stop)
    requires |name| < 256 && |padding| < 65536 && n < |EncodeTail(flags, name, padding)|
    ensures ParseTail(EncodeTail(flags, name, padding)[..n], stop) ==
            Rejected(if stop.Stalls? then TimeIsUp else if stop.end.Eof? then UnexpectedEof else BrokenConnection)
  {
    var tail := EncodeTail(flags, name, padding);
    assert tail[1] == |name| && U16(tail[2], tail[3]) == |padding|;
    if STATIC_HEADER_SIZE <= n {
      assert HandshakeSize(tail[..n]) == |tail|;
    }
  }

  // ---------------------------------------------------------------- what the bytes say

  /** The suffix in ASCII codes. */
  lemma SuffixBytes()
    ensures HeaderSuffix() == [104, 105, 100, 100, 101, 110, 108, 105, 110, 107, 33]
  {
  }

  predicate IsPunctuation(b: byte) {
    33 <= b <= 47 || 58 <= b <= 64 || 91 <= b <= 96 || 123 <= b <= 126
  }

  /** The server's rule for names: ASCII letters, digits, punctuation and spaces, and no space at either end. */
  lemma ValidNameMeans(name: Bytes)
    ensures ValidName(name) <==>
      && name != [] && name[0] != 32 && name[|name| - 1] != 32
      && forall i :: 0 <= i < |name| ==> IsAlnum(name[i]) || IsPunctuation(name[i]) || name[i] == 32
  {
  }

  /** The client's request in bytes: a bit for each direction, the sizes of name and padding, and the three parts. */
  lemma RequestBytes(flags: Flags, name: Bytes, padding: Bytes)
    requires |name| < 256 && |padding| < 65536
    ensures var bits := match (flags.ingress, flags.egress)
                        case (false, false) => 0 case (true, false) => 1 case (false, true) => 2 case _ => 3;
      EncodeTail(flags, name, padding) ==
      [bits, |name|, |padding| / 256, |padding| % 256] + name + padding
      + [104, 105, 100, 100, 101, 110, 108, 105, 110, 107, 33]
  {
    SuffixBytes();
  }

  lemma FiveParts(a: Bytes, b: Bytes, c: Bytes, d: Bytes, e: Bytes)
    ensures var s, n := a + b + c + d + e, |a| + |b| + |c|;
      && s[..|a|] == a && s[|a|..|a| + |b|] == b && s[n..n + |d|] == d && s[n + |d|..] == e
      && forall i :: 0 <= i < |a| ==> s[i] == a[i]
  {
  }

  /** Whoever wrote it and whatever is in it, a request that has come as a whole is accepted for what it says, or
      refused for the first thing that is wrong: its suffix, an unknown flag, its name. */
  lemma RequestDecides(
    bits: byte, name: Bytes, hi: byte, lo: byte, padding: Bytes, suffix: Bytes, body: Bytes, stop: Stop)
    requires |name| < 256 && BigEndian(hi, lo, |padding|) && |suffix| == 11
    ensures ParseTail([bits, |name|, hi, lo] + name + padding + suffix + body, stop) ==
      if suffix != [104, 105, 100, 100, 101, 110, 108, 105, 110, 107, 33] then Rejected(ProtocolViolation)
      else if 3 < bits then Rejected(InvalidFlags)
      else if !ValidName(name) then Rejected(InvalidName)
      else Accepted(name, Flags(bits == 1 || bits == 3, 2 <= bits), body)
  {
    SuffixBytes();
    var head := [bits, |name|, hi, lo];
    var s, size := head + name + padding + suffix + body, 4 + |name| + |padding| + 11;
    FiveParts(head, name, padding, suffix, body);
    assert 256 * (|padding| / 256) + |padding| % 256 == |padding|;
    assert HandshakeSize(s) == size;
    assert size - 11 == 4 + |name| + |padding|;
  }

  // ---------------------------------------------------------------- the server

  datatype Request = Request(name: Bytes, flags: Flags, prereadData: Bytes)

  datatype Outcome = Established(request: Request) | Refused(error: HandshakeError)

  /** Reads on until `size` bytes are buffered, with no read more than it takes. */
  method Gather(connection: Connection, buf: Bytes, size: nat) returns (r: Bytes, failure: Option<HandshakeError>)
    modifies connection`pending, connection`prompt, connection`lastChunk
    ensures r + connection.InTime() == buf + old(connection.InTime())
    ensures connection.Late() == old(connection.Late()) && connection.StopsWith() == old(connection.StopsWith())
    ensures failure.None? ==> size <= |r|
    ensures failure.Some?
      ==> |r| < size && connection.InTime() == [] && failure.value == Missing(connection.StopsWith())
    ensures r == buf || (|connection.lastChunk| <= |r| && |r| - |connection.lastChunk| < size)
  {
    r := buf;
    while |r| < size
      invariant r + connection.InTime() == buf + old(connection.InTime())
      invariant connection.Late() == old(connection.Late()) && connection.StopsWith() == old(connection.StopsWith())
      invariant r == buf || (|connection.lastChunk| <= |r| && |r| - |connection.lastChunk| < size)
      decreases |connection.pending|
    {
      var result := connection.ReadBuf();
      if result.None? {
        return r, Some(TimeIsUp);
      }
      match result.value {
        case IoError => return r, Some(BrokenConnection);
        case EndOfFile => return r, Some(UnexpectedEof);
        case Data(chunk) =>
          ConcatAssoc(r, chunk, connection.InTime());
          r := r + chunk;
      }
    }
    failure := None;
  }

  function EncodeResponse(payload: Bytes): Bytes
    requires |payload| < 65536
  {
    PutU16(|payload|) + payload + HeaderSuffix()
  }

  lemma BufferedPart(buf: Bytes, start: nat, pending: Bytes, i: nat, j: nat)
    requires i <= j && start + j <= |buf|
    ensures (buf + pending)[start..][i..j] == buf[start + i..start + j]
  {
  }

  /** What is buffered of a stream is the stream: once the whole request is in the buffer, it can be parsed there. */
  lemma ParseBuffered(buf: Bytes, start: nat, pending: Bytes, stop: Stop)
    requires start + STATIC_HEADER_SIZE <= |buf|
    requires start + HandshakeSize(buf[start..]) <= |buf|
    ensures var size, nameStart := start + HandshakeSize(buf[start..]), start + STATIC_HEADER_SIZE;
      var name := buf[nameStart..nameStart + buf[start + 1]];
      ParseTail((buf + pending)[start..], stop) ==
        if buf[size - |HeaderSuffix()|..size] != HeaderSuffix() then Rejected(ProtocolViolation)
        else if DecodeFlags(buf[start]).None? then Rejected(InvalidFlags)
        else if !ValidName(name) then Rejected(InvalidName)
        else Accepted(name, DecodeFlags(buf[start]).value, buf[size..] + pending)
  {
    var s, size := (buf + pending)[start..], HandshakeSize(buf[start..]);
    assert s == buf[start..] + pending && HandshakeSize(s) == size;
    BufferedPart(buf, start, pending, size - |HeaderSuffix()|, size);
    BufferedPart(buf, start, pending, STATIC_HEADER_SIZE, STATIC_HEADER_SIZE + buf[start + 1]);
    assert s[size..] == buf[start + size..] + pending;
  }

  /** A stream that ends before the whole request is refused for that. */
  lemma ParseMissing(s: Bytes, stop: Stop)
    requires |s| < STATIC_HEADER_SIZE || |s| < HandshakeSize(s)
    ensures ParseTail(s, stop) == Rejected(Missing(stop))
  {
  }

  /** The request in a buffer that holds all of it, with whatever else has been read. */
  method InterpretRequest(buf: Bytes, start: nat, ghost pending: Bytes, ghost stop: Stop) returns (r: Outcome)
    requires start + STATIC_HEADER_SIZE <= |buf| && start + HandshakeSize(buf[start..]) <= |buf|
    ensures match ParseTail((buf + pending)[start..], stop)
            case Rejected(error) => r == Refused(error)
            case Accepted(name, flags, rest) =>
              && r.Established? && r.request.name == name && r.request.flags == flags
              && r.request.prereadData + pending == rest
  {
    ParseBuffered(buf, start, pending, stop);
    var index := start;
    var rawFlags := buf[index];
    index := index + 1;
    var nameSize: nat := buf[index];
    index := index + 1;
    var paddingSize := U16(buf[index], buf[index + 1]);
    index := index + 2;
    var name := buf[index..index + nameSize];
    index := index + nameSize + paddingSize;
    if buf[index..index + |HeaderSuffix()|] != HeaderSuffix() {
      return Refused(ProtocolViolation);
    }
    index := index + |HeaderSuffix()|;

    var flags := DecodeFlags(rawFlags);
    if flags.None? {
      return Refused(InvalidFlags);
    }
    if !ValidName(name) {
      return Refused(InvalidName);
    }
    return Established(Request(name, flags.value, buf[index..]));
  }

  /** The client's request, from the byte after the secret: what the bytes in time parse to, with every byte after the
      request handed on. */
  method ReadRequest(connection: Connection, routed: Bytes, secretSize: nat) returns (r: Outcome)
    requires secretSize <= |routed|
    modifies connection`pending, connection`prompt, connection`lastChunk
    ensures connection.Late() == old(connection.Late()) && connection.StopsWith() == old(connection.StopsWith())
    ensures match ParseTail((routed + old(connection.InTime()))[secretSize..], connection.StopsWith())
            case Rejected(error) => r == Refused(error)
            case Accepted(name, flags, rest) =>
              && r.Established? && r.request.name == name && r.request.flags == flags
              && r.request.prereadData + connection.InTime() == rest
  {
    ghost var all, stop := routed + connection.InTime(), connection.StopsWith();
    var buf, failure := Gather(connection, routed, secretSize + STATIC_HEADER_SIZE);
    if failure.Some? {
      assert buf == all;
      ParseMissing(all[secretSize..], stop);
      return Refused(failure.value);
    }
    var handshakeSize := secretSize + HandshakeSize(buf[secretSize..]);
    assert handshakeSize == secretSize + HandshakeSize(all[secretSize..]);

    buf, failure := Gather(connection, buf, handshakeSize);
    if failure.Some? {
      assert buf == all;
      ParseMissing(all[secretSize..], stop);
      return Refused(failure.value);
    }
    assert handshakeSize == secretSize + HandshakeSize(buf[secretSize..]);
    r := InterpretRequest(buf, secretSize, connection.InTime(), stop);
  }

  /** The server's half of the handshake. It establishes the connection exactly when the request comes in time,
      parses, and is answered. */
  method ProcessHandshake(connection: Connection, routed: Bytes, secretSize: nat, randomPayload: Bytes)
    returns (r: Outcome)
    requires secretSize <= |routed|
    requires 70 <= |randomPayload| <= 350
    modifies connection`pending, connection`prompt, connection`lastChunk, connection`written, connection`failures
    ensures connection.Late() == old(connection.Late()) && connection.StopsWith() == old(connection.StopsWith())
    ensures var parsed := ParseTail((routed + old(connection.InTime()))[secretSize..], connection.StopsWith());
      && (parsed.Rejected? ==> r == Refused(parsed.error) && connection.written == old(connection.written))
      && (parsed.Rejected? ==> connection.failures == old(connection.failures))
      && (parsed.Accepted? && connection.failures != old(connection.failures) ==> r == Refused(BrokenConnection))
      && (parsed.Accepted? && connection.failures == old(connection.failures) ==>
            && r.Established? && r.request.name == parsed.name && r.request.flags == parsed.flags
            && r.request.prereadData + connection.InTime() == parsed.rest
            && connection.written == old(connection.written) + EncodeResponse(randomPayload))
  {
    r := ReadRequest(connection, routed, secretSize);
    if r.Established? {
      var ok := connection.WriteAll(EncodeResponse(randomPayload));
      if !ok {
        return Refused(BrokenConnection);
      }
    }
  }

  // ---------------------------------------------------------------- the client

  datatype ClientOutcome = Connected | NameTooLong | WriteFailed | ReadFailed | BadResponse

  /** The response as the client takes it off the stream: two bytes of size, then that many and the suffix. */
  function ResponseSize(s: Bytes): nat
    requires 2 <= |s|
  {
    2 + U16(s[0], s[1]) + |HeaderSuffix()|
  }

  predicate GoodResponse(s: Bytes) {
    2 <= |s| && ResponseSize(s) <= |s| && HeaderSuffix() == s[ResponseSize(s) - |HeaderSuffix()|..ResponseSize(s)]
  }

  /** The client's half. It takes exactly the response off the stream, so the packets behind it are left for the
      reader. */
  method ClientHandshake(connection: Connection, secretHeader: Bytes, flags: Flags, name: Bytes, randomPayload: Bytes)
    returns (r: ClientOutcome)
    requires 100 <= |randomPayload| <= 2000
    modifies connection`pending, connection`written, connection`failures
    ensures r.NameTooLong? <==> 256 <= |name|
    ensures r.NameTooLong? ==> connection.written == old(connection.written)
    ensures r.WriteFailed? <==> connection.failures != old(connection.failures)
    ensures r.Connected? <==>
      |name| < 256 && connection.failures == old(connection.failures) && GoodResponse(old(connection.pending))
    ensures r.Connected? ==>
      && connection.written == old(connection.written) + (secretHeader + EncodeTail(flags, name, randomPayload))
      && connection.pending == old(connection.pending)[ResponseSize(old(connection.pending))..]
  {
    if 256 <= |name| {
      return NameTooLong;
    }
    var ok := connection.WriteAll(secretHeader + EncodeTail(flags, name, randomPayload));
    if !ok {
      return WriteFailed;
    }
    ghost var stream := connection.pending;
    var size := connection.ReadExact(2);
    if size.None? {
      return ReadFailed;
    }
    assert stream[0] == size.value[0] && stream[1] == size.value[1];
    var responseSize := U16(size.value[0], size.value[1]) + |HeaderSuffix()|;
    var response := connection.ReadExact(responseSize);
    if response.None? {
      return ReadFailed;
    }
    assert stream == size.value + response.value + connection.pending;
    assert ResponseSize(stream) == 2 + responseSize;
    assert stream[2 + responseSize - 11..2 + responseSize] == response.value[responseSize - 11..];
    if response.value[responseSize - |HeaderSuffix()|..] != HeaderSuffix() {
      return BadResponse;
    }
    assert stream[2 + responseSize..] == connection.pending;
    return Connected;
  }

  /** The client accepts every response the server can send, and then reads what follows it. */
  lemma ResponseAccepted(payload: Bytes, body: Bytes)
    requires |payload| < 65536
    ensures var s := EncodeResponse(payload) + body; GoodResponse(s) && s[ResponseSize(s)..] == body
  {
    var s := EncodeResponse(payload) + body;
    assert U16(s[0], s[1]) == |payload|;
    assert s[2 + |payload|..2 + |payload| + 11] == HeaderSuffix();
    assert s[2 + |payload| + 11..] == body;
  }

  /** The response in bytes, whoever wrote it: the size of its payload, the payload, and eleven bytes that must be the
      suffix; with less than that the client goes on waiting. */
  lemma ResponseDecides(hi: byte, lo: byte, payload: Bytes, suffix: Bytes, body: Bytes)
    requires BigEndian(hi, lo, |payload|) && |suffix| == 11
    ensures var s := [hi, lo] + payload + suffix + body;
      && (GoodResponse(s) <==> suffix == [104, 105, 100, 100, 101, 110, 108, 105, 110, 107, 33])
      && ResponseSize(s) == 2 + |payload| + 11 && s[ResponseSize(s)..] == body
    ensures forall n :: 0 <= n < 2 + |payload| + 11 ==> !GoodResponse(([hi, lo] + payload + suffix)[..n])
  {
    SuffixBytes();
    var s, n := [hi, lo] + payload + suffix + body, 2 + |payload| + 11;
    assert 256 * (|payload| / 256) + |payload| % 256 == |payload|;
    assert ResponseSize(s) == n && s[n - 11..n] == suffix && s[n..] == body;
    forall k | 2 <= k < n
      ensures ResponseSize(([hi, lo] + payload + suffix)[..k]) == n
    {
    }
  }

  /** The server's response is of that form. */
  lemma ResponseBytes(payload: Bytes)
    requires |payload| < 65536
    ensures EncodeResponse(payload) ==
      [|payload| / 256, |payload| % 256] + payload + [104, 105, 100, 100, 101, 110, 108, 105, 110, 107, 33]
  {
    SuffixBytes();
  }

  // ---------------------------------------------------------------- names

  predicate IsAlnum(b: byte) {
    48 <= b <= 57 || 65 <= b <= 90 || 97 <= b <= 122
  }

  /** The transport names a configuration may choose: '#' is kept for generated ones. */
  predicate ConfigurableName(name: Bytes) {
    Trimmed(name) && forall i :: 0 <= i < |name| ==> IsAlnum(name[i]) || name[i] == SPACE
  }

  function Decimal(n: nat): (r: Bytes)
    ensures r != [] && forall i :: 0 <= i < |r| ==> IsAlnum(r[i])
  {
    if n < 10 then [48 + n] else Decimal(n / 10) + [48 + n % 10]
  }

  function Numbered(name: Bytes, id: nat): Bytes {
    name + [SPACE, 35] + Decimal(id)
  }

  /** The name of an HTTP client transport: configured, or generated from its index when there are several. */
  function TransportName(configured: Option<Bytes>, index: nat, several: bool): Bytes {
    if configured.Some? then configured.value
    else if several then Numbered(Ascii("HTTP client"), index)
    else Ascii("HTTP client")
  }

  function ConnectionName(transport: Bytes, id: nat, connections: nat): Bytes {
    if 1 < connections then Numbered(transport, id) else transport
  }

  lemma NumberedIsValid(name: Bytes, id: nat)
    requires ValidName(name)
    ensures ValidName(Numbered(name, id))
  {
    var r := Numbered(name, id);
    assert r[0] == name[0];
    assert r[|r| - 1] == Decimal(id)[|Decimal(id)| - 1];
  }

  /** Every name a client can introduce itself with is one the server accepts. */
  lemma ClientNamesAreValid(configured: Option<Bytes>, index: nat, several: bool, id: nat, connections: nat)
    requires configured.Some? ==> ConfigurableName(configured.value)
    ensures ValidName(ConnectionName(TransportName(configured, index, several), id, connections))
  {
    assert ValidName(Ascii("HTTP client"));
    if configured.None? && several {
      NumberedIsValid(Ascii("HTTP client"), index);
    }
    var transport := TransportName(configured, index, several);
    assert ValidName(transport);
    if 1 < connections {
      NumberedIsValid(transport, id);
    }
  }

  function ReadDecimal(s: Bytes): int {
    if s == [] then 0
    else
      var last: int := s[|s| - 1];
      10 * ReadDecimal(s[..|s| - 1]) + (last - 48)
  }

  /** The number in decimal digits, without leading zeros. */
  lemma {:induction false} DecimalReads(n: nat)
    ensures ReadDecimal(Decimal(n)) == n && forall i :: 0 <= i < |Decimal(n)| ==> 48 <= Decimal(n)[i] <= 57
    ensures 0 < n ==> Decimal(n)[0] != 48
  {
    if n < 10 {
      assert Decimal(n)[..0] == [];
    } else {
      DecimalReads(n / 10);
      assert Decimal(n)[..|Decimal(n)| - 1] == Decimal(n / 10);
    }
  }

  /** A connection bears its transport's name alone, or, if it has siblings, followed by a space, '#' and its number. */
  lemma ConnectionNameMeans(transport: Bytes, id: nat, connections: nat)
    ensures var name := ConnectionName(transport, id, connections);
      if connections <= 1 then name == transport
      else |transport| + 2 <= |name| && name[..|transport| + 2] == transport + [32, 35]
           && ReadDecimal(name[|transport| + 2..]) == id
  {
    var name := ConnectionName(transport, id, connections);
    if 1 < connections {
      assert name[|transport| + 2..] == Decimal(id) && name[..|transport| + 2] == transport + [32, 35];
      DecimalReads(id);
    }
  }

  lemma {:induction false} DecimalIsInjective(i: nat, j: nat)
    requires Decimal(i) == Decimal(j)
    ensures i == j
  {
    if i < 10 || j < 10 {
      assert |Decimal(i)| == 1 ==> i < 10;
      assert |Decimal(j)| == 1 ==> j < 10;
    } else {
      assert Decimal(i)[..|Decimal(i)| - 1] == Decimal(i / 10) && Decimal(j)[..|Decimal(j)| - 1] == Decimal(j / 10);
      DecimalIsInjective(i / 10, j / 10);
    }
  }

  /** The number can be told from the name: it is what follows the last '#'. */
  lemma NumberedIsInjective(a: Bytes, i: nat, b: Bytes, j: nat)
    requires Numbered(a, i) == Numbered(b, j)
    ensures a == b && i == j
  {
    var s, t := Numbered(a, i), Numbered(b, j);
    assert s[|a| + 1] == 35 && t[|b| + 1] == 35;
    assert forall k :: |a| + 2 <= k < |s| ==> IsAlnum(s[k]);
    assert forall k :: |b| + 2 <= k < |t| ==> IsAlnum(t[k]);
    assert |a| == |b|;
    assert s[..|a|] == a && t[..|b|] == b;
    assert s[|a| + 2..] == Decimal(i) && t[|b| + 2..] == Decimal(j);
    DecimalIsInjective(i, j);
  }

  /** Connections of different transports bear the same name exactly when one transport is alone and named as another
      one numbers its connections; connections of one transport never do. */
  lemma NamesCollide(t: Bytes, i: nat, n: nat, u: Bytes, j: nat, m: nat)
    requires 0 < n && 0 < m
    ensures ConnectionName(t, i, n) == ConnectionName(u, j, m) <==>
            || (t == u && (if n == 1 then m == 1 else i == j && 1 < m))
            || (1 < n && m == 1 && u == Numbered(t, i))
            || (1 < m && n == 1 && t == Numbered(u, j))
  {
    if 1 < n && 1 < m && Numbered(t, i) == Numbered(u, j) {
      NumberedIsInjective(t, i, u, j);
    }
  }

  /** And that can happen: a transport configured as "HTTP client" with two connections, beside an unnamed one that
      comes second. */
  lemma NamesDoCollide()
    ensures var t, u := TransportName(Some(Ascii("HTTP client")), 1, true), TransportName(None, 2, true);
      ConfigurableName(Ascii("HTTP client")) && t != u && ConnectionName(t, 2, 2) == ConnectionName(u, 1, 1)
  {
    assert |Numbered(Ascii("HTTP client"), 2)| != |Ascii("HTTP client")|;
  }
}
