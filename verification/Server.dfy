/** One accepted connection, from its first byte to its end: routing, then the tunnel or a proxy to an upstream. */
module Server {
  import opened Wire
  import opened PacketStream
  import opened ByteSource
  import opened Endpoints
  import opened Routing
  import opened Handshake
  import Reader = PacketReader

  /** The application protocol negotiated by TLS. */
  datatype Alpn = NoProtocol | Http1 | OtherProtocol

  datatype Served =
    | Tunnelled(name: Bytes, flags: Flags, farewell: Farewell)
    | ProxiedToHttp(complete: bool)
    | ProxiedToTrojan(complete: bool)
    | Dropped(error: HandshakeError)
    | TimedOut

  /** `proxy_connection`, one direction: the bytes already read, then the rest of the stream, then shutdown. */
  method ProxyConnection(prereadData: Bytes, reader: Connection, writer: Connection) returns (ok: bool)
    requires reader != writer
    modifies reader`pending, writer`written, writer`shut, writer`failures
    ensures ok <==> writer.failures == old(writer.failures) && reader.end.Eof?
    ensures ok ==> writer.written == old(writer.written) + (prereadData + old(reader.pending)) && writer.shut
    ensures old(writer.written) <= writer.written <= old(writer.written) + (prereadData + old(reader.pending))
  {
    ghost var start, all := writer.written, prereadData + reader.pending;
    ok := writer.WriteAll(prereadData);
    if !ok {
      assert start + all == start + prereadData + reader.pending;
      return;
    }
    while true
      invariant writer.failures == old(writer.failures) && writer.shut == old(writer.shut)
      invariant start <= writer.written && writer.written + reader.pending == start + all
      decreases |reader.pending|
    {
      var result := reader.Read(8192);
      match result {
        case IoError =>
          return false;
        case EndOfFile =>
          ok := writer.Shutdown();
          return;
        case Data(chunk) =>
          ok := writer.WriteAll(chunk);
          if !ok {
            assert start + all == old(writer.written) + (prereadData + old(reader.pending));
            return;
          }
      }
    }
  }

  /** What comes to a connection that has been accepted: the bytes that are in time and those that are not, what comes
      after the former, and how the whole stream ends. */
  datatype Input = Input(seen: Bytes, late: Bytes, stop: Stop, end: End)

  ghost function InputOf(connection: Connection): Input
    reads connection`pending, connection`prompt
  {
    Input(connection.InTime(), connection.Late(), connection.StopsWith(), connection.end)
  }

  /** The connection becomes a tunnel for a request that is in time; the packets behind it have no timer. */
  ghost predicate TunnelledRight(tail: Bytes, input: Input, r: Served)
    requires r.Tunnelled?
  {
    var parsed := ParseTail(tail, input.stop);
    && parsed.Accepted? && parsed.name == r.name && parsed.flags == r.flags
    && (r.farewell.ShutdownWith? <==> Ending(parsed.rest + input.late, input.end).Finished?)
  }

  /** A handshake is dropped for its own fault, or because the response to a good one cannot be written. */
  ghost predicate DroppedRight(tail: Bytes, input: Input, failed: bool, r: Served)
    requires r.Dropped?
  {
    match ParseTail(tail, input.stop)
    case Rejected(error) => r.error == error != TimeIsUp
    case Accepted(_, _, _) => failed && r.error == BrokenConnection
  }

  /** What the server must do with a connection whose whole input is known; `failed` tells that the response could not
      be written. The handshake's timer drops it exactly when what is in time decides nothing. */
  ghost predicate ServedRight(rules: seq<Rule>, alpn: Alpn, input: Input, failed: bool, r: Served) {
    if alpn.OtherProtocol? then r.ProxiedToHttp?
    else
      && (r.ProxiedToHttp? ==>
            && (forall p, n :: !Matches(rules, input.seen + input.late, p, n))
            && (Undecided(rules, input.seen) ==> input.stop == Ends(Eof)))
      && (r.ProxiedToTrojan? ==> exists n :: Matches(rules, input.seen, Trojan, n))
      && (r.TimedOut? ==>
            && input.stop.Stalls?
            && (|| Undecided(rules, input.seen)
                || exists n: nat :: Matches(rules, input.seen, Hiddenlink, n) && n <= |input.seen|
                                    && ParseTail(input.seen[n..], input.stop) == Rejected(TimeIsUp)))
      && (r.Dropped? ==>
            || (input.stop == Ends(Fault) && Undecided(rules, input.seen) && r.error == BrokenConnection)
            || (exists n: nat :: Matches(rules, input.seen, Hiddenlink, n) && n <= |input.seen|
                                 && DroppedRight(input.seen[n..], input, failed, r)))
      && (r.Tunnelled? ==>
            !failed && exists n: nat :: Matches(rules, input.seen, Hiddenlink, n) && n <= |input.seen|
                                        && TunnelledRight(input.seen[n..], input, r))
  }

  /** The packets a stream brings to the tun device: those after a handshake that allows them. */
  function Delivered(tail: Bytes, stop: Stop, late: Bytes): seq<Bytes> {
    match ParseTail(tail, stop)
    case Accepted(_, flags, rest) => if flags.egress then Packets(rest + late) else []
    case Rejected(_) => []
  }

  lemma InTimeThenLate(connection: Connection)
    ensures connection.InTime() + connection.Late() == connection.pending
  {
  }

  /** A tunnel connection after routing: the handshake and then the packets. */
  method ServeTunnel(
    connection: Connection, routed: Bytes, secretSize: nat, tunnel: TunDevice,
    randomResponse: Bytes, randomGoodbye: Bytes)
    returns (r: Served)
    requires secretSize <= |routed|
    requires 70 <= |randomResponse| <= 350 && 200 <= |randomGoodbye| <= MTU - 3
    modifies connection`pending, connection`prompt, connection`lastChunk, connection`written, connection`failures,
      tunnel
    ensures var tail := (routed + old(connection.InTime()))[secretSize..];
      var input, failed := old(InputOf(connection)), connection.failures != old(connection.failures);
      && (r.Tunnelled? || r.Dropped? || r.TimedOut?)
      && (r.TimedOut? <==> ParseTail(tail, input.stop) == Rejected(TimeIsUp))
      && (r.Tunnelled? <==> !failed && ParseTail(tail, input.stop).Accepted?)
      && (r.Tunnelled? ==> TunnelledRight(tail, input, r))
      && (r.Dropped? ==> DroppedRight(tail, input, failed, r))
      && (!r.Tunnelled? ==> tunnel.packets == old(tunnel.packets))
      && (r.Tunnelled? ==> tunnel.packets == old(tunnel.packets) + Delivered(tail, input.stop, input.late))
      && (r.TimedOut? ==> connection.written == old(connection.written))
  {
    ghost var tail, input := (routed + connection.InTime())[secretSize..], InputOf(connection);
    var outcome := ProcessHandshake(connection, routed, secretSize, randomResponse);
    match outcome
    case Refused(error) =>
      r := if error.TimeIsUp? then Served.TimedOut else Dropped(error);
    case Established(request) =>
      var reader := new Reader.PacketReader(request.prereadData, connection);
      InTimeThenLate(connection);
      ConcatAssoc(request.prereadData, connection.InTime(), connection.Late());
      assert reader.Remaining() == ParseTail(tail, input.stop).rest + input.late;
      var farewell := HandleConnection(reader, request.flags, tunnel, randomGoodbye);
      r := Tunnelled(request.name, request.flags, farewell);
  }

  /** A routed tunnel connection: of all rules' headers only one starts the stream. */
  lemma TunnelIsServedRight(rules: seq<Rule>, alpn: Alpn, input: Input, failed: bool, r: Served, n: nat)
    requires Unambiguous(rules) && !alpn.OtherProtocol?
    requires n <= |input.seen| && Matches(rules, input.seen, Hiddenlink, n)
    requires r.Tunnelled? || r.Dropped? || r.TimedOut?
    requires r.TimedOut? <==> ParseTail(input.seen[n..], input.stop) == Rejected(TimeIsUp)
    requires r.Tunnelled? ==> !failed && TunnelledRight(input.seen[n..], input, r)
    requires r.Dropped? ==> DroppedRight(input.seen[n..], input, failed, r)
    ensures ServedRight(rules, alpn, input, failed, r)
    ensures forall m :: Matches(rules, input.seen, Hiddenlink, m) ==> m == n
  {
    forall m | Matches(rules, input.seen, Hiddenlink, m)
      ensures m == n
    {
      MatchIsUnique(rules, input.seen, Hiddenlink, n, Hiddenlink, m);
    }
  }

  /** A stream that starts with no header goes to the web server; whatever becomes of the writes. */
  lemma UnknownIsServedRight(rules: seq<Rule>, alpn: Alpn, input: Input)
    requires forall p, n :: !Matches(rules, input.seen + input.late, p, n)
    requires Undecided(rules, input.seen) ==> !input.stop.Stalls? && input.stop != Ends(Fault)
    ensures forall failed, complete :: ServedRight(rules, alpn, input, failed, ProxiedToHttp(complete))
  {
    match input.stop
    case Stalls =>
    case Ends(Eof) =>
    case Ends(Fault) =>
  }

  /** Every connection is served by the protocol its first bytes announce, whatever the chunking: the tunnel gets
      exactly the packets behind the handshake, and an upstream that is proxied to completion gets exactly the
      client's bytes. */
  method Serve(
    connection: Connection, alpn: Alpn, encodedSecret: Bytes, digests: seq<Bytes>, http: Connection, trojan: Connection,
    tunnel: TunDevice, randomResponse: Bytes, randomGoodbye: Bytes) returns (r: Served)
    requires connection != http && connection != trojan && http != trojan
    requires forall i :: 0 <= i < |digests| ==> |digests[i]| == DIGEST_SIZE
    requires 70 <= |randomResponse| <= 350 && 200 <= |randomGoodbye| <= MTU - 3
    modifies connection`pending, connection`prompt, connection`lastChunk, connection`written, connection`failures,
      tunnel
    modifies http`written, http`shut, http`failures, trojan`written, trojan`shut, trojan`failures
    ensures ServedRight(
              AsRoutingRules(encodedSecret, digests), alpn, old(InputOf(connection)),
              connection.failures != old(connection.failures), r)
    ensures r.ProxiedToHttp? ==> (r.complete <==> http.failures == old(http.failures) && connection.end.Eof?)
    ensures r.ProxiedToTrojan? ==> (r.complete <==> trojan.failures == old(trojan.failures) && connection.end.Eof?)
    ensures r.ProxiedToHttp? && r.complete ==> http.written == old(http.written) + old(connection.pending) && http.shut
    ensures r.ProxiedToTrojan? && r.complete
      ==> trojan.written == old(trojan.written) + old(connection.pending) && trojan.shut
    ensures !r.ProxiedToHttp? ==> http.written == old(http.written)
    ensures !r.ProxiedToTrojan? ==> trojan.written == old(trojan.written)
    ensures r.TimedOut? ==> connection.written == old(connection.written)
    ensures !r.Tunnelled? ==> tunnel.packets == old(tunnel.packets)
    ensures var input := old(InputOf(connection));
      forall n: nat | n <= |input.seen| && Matches(AsRoutingRules(encodedSecret, digests), input.seen, Hiddenlink, n) ::
        r.Tunnelled? ==> tunnel.packets == old(tunnel.packets) + Delivered(input.seen[n..], input.stop, input.late)
  {
    ghost var stream, input := connection.pending, InputOf(connection);
    if alpn.OtherProtocol? {
      assert [] + stream == stream;
      var complete := ProxyConnection([], connection, http);
      return ProxiedToHttp(complete);
    }
    var rules := AsRoutingRules(encodedSecret, digests);
    ConfiguredRulesAreUnambiguous(encodedSecret, digests);
    InTimeThenLate(connection);
    var router := new Router(rules);
    var route := router.Route(connection);
    match route
    case IoFailure =>
      r := Dropped(BrokenConnection);
    case TimedOut =>
      r := Served.TimedOut;
    case Unknown =>
      UnknownIsServedRight(rules, alpn, input);
      var complete := ProxyConnection(router.buf, connection, http);
      r := ProxiedToHttp(complete);
    case Routed(protocol, n) =>
      if protocol.Trojan? {
        var complete := ProxyConnection(router.buf, connection, trojan);
        return ProxiedToTrojan(complete);
      }
      assert router.buf + connection.InTime() == input.seen;
      ghost var failures := connection.failures;
      r := ServeTunnel(connection, router.buf, n, tunnel, randomResponse, randomGoodbye);
      TunnelIsServedRight(rules, alpn, input, connection.failures != failures, r, n);
  }

  /** The stream of a client that introduces itself as `name`, up to `cut` bytes into a last packet. */
  function ClientStream(
    encodedSecret: Bytes, flags: Flags, name: Bytes, padding: Bytes, packets: seq<Bytes>, last: Bytes, cut: nat): Bytes
    requires |name| <= 255 && |padding| <= 2000 && cut < |last|
  {
    SecretHeader(encodedSecret) + (EncodeTail(flags, name, padding) + (Flatten(packets) + last[..cut]))
  }

  /** What of a client's stream must be in time: everything up to the first packet. */
  function HandshakeEnd(encodedSecret: Bytes, flags: Flags, name: Bytes, padding: Bytes): nat
    requires |name| <= 255 && |padding| <= 2000
  {
    |SecretHeader(encodedSecret)| + |EncodeTail(flags, name, padding)|
  }

  /** The input that a client's stream is when its first `prompt` bytes are in time. */
  function ClientInput(stream: Bytes, prompt: nat, end: End): Input {
    var k := Min(prompt, |stream|);
    Input(stream[..k], stream[k..], if prompt <= |stream| then Stalls else Ends(end), end)
  }

  /** Where the timer cuts a client's stream behind the handshake. */
  lemma ClientInputSplit(stream: Bytes, header: Bytes, tail: Bytes, body: Bytes, prompt: nat, end: End)
    requires stream == header + (tail + body) && |header| + |tail| <= prompt
    ensures var input := ClientInput(stream, prompt, end);
      |header| + |tail| <= |input.seen| <= |stream|
      && var front := body[..|input.seen| - |header| - |tail|];
      header <= input.seen && input.seen[|header|..] == tail + front && front + input.late == body
  {
  }

  lemma ClientPackets(packets: seq<Bytes>, last: Bytes, cut: nat, end: End)
    requires AllWellFormed(packets) && WellFormed(last) && cut < |last|
    ensures Packets(Flatten(packets) + last[..cut]) == packets
    ensures Ending(Flatten(packets) + last[..cut], end).Finished? <==> cut == 0 && end.Eof?
  {
    ReadFlatten(packets, last[..cut], end);
    NextTruncated(last, cut, Fault);
    NextTruncated(last, cut, end);
    assert packets + [] == packets;
  }

  /** For every secret, name, padding, list of well-formed packets and trailing part of one more, and every timer that
      leaves time for the handshake: the stream a client writes is routed to the tunnel, recognised under its own name
      and flags, and brings exactly those packets, or none if it is for the other direction only. */
  lemma ClientStreamIsUnderstood(
    encodedSecret: Bytes, digests: seq<Bytes>, flags: Flags, name: Bytes, padding: Bytes,
    packets: seq<Bytes>, last: Bytes, cut: nat, prompt: nat, end: End)
    requires ValidName(name) && |name| <= 255 && |padding| <= 2000
    requires AllWellFormed(packets) && WellFormed(last) && cut < |last|
    requires HandshakeEnd(encodedSecret, flags, name, padding) <= prompt
    ensures var n := |SecretHeader(encodedSecret)|;
      var input := ClientInput(ClientStream(encodedSecret, flags, name, padding, packets, last, cut), prompt, end);
      && n <= |input.seen| && Matches(AsRoutingRules(encodedSecret, digests), input.seen, Hiddenlink, n)
      && var parsed := ParseTail(input.seen[n..], input.stop);
      && parsed.Accepted? && parsed.name == name && parsed.flags == flags
      && parsed.rest + input.late == Flatten(packets) + last[..cut]
      && Delivered(input.seen[n..], input.stop, input.late) == (if flags.egress then packets else [])
      && (Ending(Flatten(packets) + last[..cut], end).Finished? <==> cut == 0 && end.Eof?)
  {
    var header, tail := SecretHeader(encodedSecret), EncodeTail(flags, name, padding);
    var body := Flatten(packets) + last[..cut];
    var stream := ClientStream(encodedSecret, flags, name, padding, packets, last, cut);
    var input := ClientInput(stream, prompt, end);
    var rules := AsRoutingRules(encodedSecret, digests);
    ClientInputSplit(stream, header, tail, body, prompt, end);
    assert rules[0] == Rule(Hiddenlink, header);
    ParseEncoded(flags, name, padding, body[..|input.seen| - |header| - |tail|], input.stop);
    ClientPackets(packets, last, cut, end);
  }

  /** With less time than that, nothing is decided. */
  lemma ClientStreamIsLate(
    encodedSecret: Bytes, digests: seq<Bytes>, flags: Flags, name: Bytes, padding: Bytes,
    packets: seq<Bytes>, last: Bytes, cut: nat, prompt: nat, end: End)
    requires |name| <= 255 && |padding| <= 2000 && cut < |last|
    requires prompt < HandshakeEnd(encodedSecret, flags, name, padding)
    ensures var n := |SecretHeader(encodedSecret)|;
      var input := ClientInput(ClientStream(encodedSecret, flags, name, padding, packets, last, cut), prompt, end);
      && input.stop.Stalls? && |input.seen| == prompt
      && (prompt < n ==> Undecided(AsRoutingRules(encodedSecret, digests), input.seen))
      && (n <= prompt ==>
            && Matches(AsRoutingRules(encodedSecret, digests), input.seen, Hiddenlink, n)
            && ParseTail(input.seen[n..], input.stop) == Rejected(TimeIsUp))
  {
    var header, tail := SecretHeader(encodedSecret), EncodeTail(flags, name, padding);
    var body := Flatten(packets) + last[..cut];
    var input := ClientInput(ClientStream(encodedSecret, flags, name, padding, packets, last, cut), prompt, end);
    var rules := AsRoutingRules(encodedSecret, digests);
    assert rules[0] == Rule(Hiddenlink, header);
    if prompt < |header| {
      assert input.seen == header[..prompt] && input.seen < rules[0].header;
    } else {
      assert input.seen == header + tail[..prompt - |header|];
      assert input.seen[|header|..] == tail[..prompt - |header|] && rules[0].header <= input.seen;
      ParseCut(flags, name, padding, prompt - |header|, input.stop);
    }
  }

  /** A stream that starts with a rule's header leaves nothing open. */
  lemma MatchedIsDecided(rules: seq<Rule>, stream: Bytes, p: Protocol, n: nat)
    requires Unambiguous(rules) && Matches(rules, stream, p, n)
    ensures !Undecided(rules, stream)
  {
    var i :| 0 <= i < |rules| && rules[i].header <= stream && rules[i].protocol == p && |rules[i].header| == n;
    assert forall j :: 0 <= j < |rules| && stream < rules[j].header ==> rules[i].header <= rules[j].header;
  }

  /** On a tunnel stream whose request parses, only what comes after can decide the outcome. */
  lemma ServedAsClient(rules: seq<Rule>, alpn: Alpn, input: Input, failed: bool, r: Served, n: nat)
    requires Unambiguous(rules) && n <= |input.seen| && Matches(rules, input.seen, Hiddenlink, n)
    requires ParseTail(input.seen[n..], input.stop).Accepted?
    requires !alpn.OtherProtocol? && ServedRight(rules, alpn, input, failed, r)
    ensures if failed then r == Dropped(BrokenConnection) else r.Tunnelled?
    ensures r.Tunnelled? ==> TunnelledRight(input.seen[n..], input, r)
  {
    MatchedIsDecided(rules, input.seen, Hiddenlink, n);
    MatchGrows(rules, input.seen, input.late, Hiddenlink, n);
    forall p, m | Matches(rules, input.seen, p, m)
      ensures p == Hiddenlink && m == n
    {
      MatchIsUnique(rules, input.seen, Hiddenlink, n, p, m);
    }
  }

  lemma MatchGrows(rules: seq<Rule>, seen: Bytes, more: Bytes, p: Protocol, n: nat)
    requires Matches(rules, seen, p, n)
    ensures Matches(rules, seen + more, p, n)
  {
    var i :| 0 <= i < |rules| && rules[i].header <= seen && rules[i].protocol == p && |rules[i].header| == n;
    assert rules[i].header <= seen + more;
  }

  /** Input that is cut off inside a header or a request times out. */
  lemma ServedAsLate(rules: seq<Rule>, alpn: Alpn, input: Input, failed: bool, r: Served, n: nat)
    requires Unambiguous(rules) && input.stop.Stalls?
    requires Undecided(rules, input.seen)
             || (n <= |input.seen| && Matches(rules, input.seen, Hiddenlink, n)
                 && ParseTail(input.seen[n..], input.stop) == Rejected(TimeIsUp))
    requires exists i :: 0 <= i < |rules| && rules[i].header <= input.seen + input.late
    requires !alpn.OtherProtocol? && ServedRight(rules, alpn, input, failed, r)
    ensures r.TimedOut?
  {
    var i :| 0 <= i < |rules| && rules[i].header <= input.seen + input.late;
    assert Matches(rules, input.seen + input.late, rules[i].protocol, |rules[i].header|);
    forall p, m | Matches(rules, input.seen, p, m)
      ensures !Undecided(rules, input.seen) && p == Hiddenlink && m == n
    {
      MatchedIsDecided(rules, input.seen, p, m);
      MatchIsUnique(rules, input.seen, Hiddenlink, n, p, m);
    }
  }

  /** End to end: a client's stream, in whatever chunks it comes, is served as a tunnel under the client's own name
      and flags, and exactly its packets reach the tun device if the client may send at all, if the response can be
      written and the handshake, up to the first packet, is in time; if it is not, the connection is dropped without
      an answer. */
  method ServeClient(
    connection: Connection, alpn: Alpn, encodedSecret: Bytes, digests: seq<Bytes>, http: Connection, trojan: Connection,
    tunnel: TunDevice, randomResponse: Bytes, randomGoodbye: Bytes,
    ghost flags: Flags, ghost name: Bytes, ghost padding: Bytes,
    ghost packets: seq<Bytes>, ghost last: Bytes, ghost cut: nat)
    returns (r: Served)
    requires connection != http && connection != trojan && http != trojan && !alpn.OtherProtocol?
    requires forall i :: 0 <= i < |digests| ==> |digests[i]| == DIGEST_SIZE
    requires 70 <= |randomResponse| <= 350 && 200 <= |randomGoodbye| <= MTU - 3
    requires ValidName(name) && |name| <= 255 && |padding| <= 2000
    requires AllWellFormed(packets) && WellFormed(last) && cut < |last|
    requires connection.pending == ClientStream(encodedSecret, flags, name, padding, packets, last, cut)
    modifies connection`pending, connection`prompt, connection`lastChunk, connection`written, connection`failures,
      tunnel
    modifies http`written, http`shut, http`failures, trojan`written, trojan`shut, trojan`failures
    ensures var timely := HandshakeEnd(encodedSecret, flags, name, padding) <= old(connection.prompt);
      var failed := connection.failures != old(connection.failures);
      && (timely && !failed ==>
            && r.Tunnelled? && r.flags == flags && r.name == name
            && (r.farewell.ShutdownWith? <==> cut == 0 && connection.end.Eof?)
            && tunnel.packets == old(tunnel.packets) + (if flags.egress then packets else []))
      && (timely && failed ==> r == Dropped(BrokenConnection))
      && (!timely ==> r.TimedOut? && connection.written == old(connection.written))
    ensures !r.Tunnelled? ==> tunnel.packets == old(tunnel.packets)
  {
    ghost var prompt, end, n := connection.prompt, connection.end, |SecretHeader(encodedSecret)|;
    ghost var input, failures := InputOf(connection), connection.failures;
    ghost var rules := AsRoutingRules(encodedSecret, digests);
    assert input == ClientInput(connection.pending, prompt, end);
    ConfiguredRulesAreUnambiguous(encodedSecret, digests);
    r := Serve(connection, alpn, encodedSecret, digests, http, trojan, tunnel, randomResponse, randomGoodbye);
    ghost var failed := connection.failures != failures;
    if HandshakeEnd(encodedSecret, flags, name, padding) <= prompt {
      ClientStreamIsUnderstood(encodedSecret, digests, flags, name, padding, packets, last, cut, prompt, end);
      ServedAsClient(rules, alpn, input, failed, r, n);
    } else {
      ClientStreamIsLate(encodedSecret, digests, flags, name, padding, packets, last, cut, prompt, end);
      ClientHeader(encodedSecret, digests, flags, name, padding, packets, last, cut, input);
      ServedAsLate(rules, alpn, input, failed, r, n);
    }
  }

  // ---------------------------------------------------------------- what the first bytes decide

  /** The stream starts with the Trojan header of some password: the digest in hexadecimal. */
  ghost predicate StartsAsTrojan(digests: seq<Bytes>, stream: Bytes) {
    56 <= |stream| && exists i :: 0 <= i < |digests| && Spells(stream[..56], digests[i])
  }

  lemma TrojanRule(encodedSecret: Bytes, digests: seq<Bytes>, i: nat)
    requires i < |AsRoutingRules(encodedSecret, digests)|
    ensures AsRoutingRules(encodedSecret, digests)[i] ==
            if i == 0 then Rule(Hiddenlink, SecretHeader(encodedSecret)) else Rule(Trojan, Hex(digests[i - 1]))
  {
  }

  lemma TrojanMatches(encodedSecret: Bytes, digests: seq<Bytes>, stream: Bytes)
    requires forall i :: 0 <= i < |digests| ==> |digests[i]| == DIGEST_SIZE
    ensures StartsAsTrojan(digests, stream) ==> Matches(AsRoutingRules(encodedSecret, digests), stream, Trojan, 56)
  {
    if StartsAsTrojan(digests, stream) {
      var i :| 0 <= i < |digests| && Spells(stream[..56], digests[i]);
      HexSpells(stream[..56], digests[i]);
      TrojanRule(encodedSecret, digests, i + 1);
      assert AsRoutingRules(encodedSecret, digests)[i + 1].header == stream[..56];
    }
  }

  lemma MatchIsTrojan(encodedSecret: Bytes, digests: seq<Bytes>, stream: Bytes, n: nat)
    requires forall i :: 0 <= i < |digests| ==> |digests[i]| == DIGEST_SIZE
    requires Matches(AsRoutingRules(encodedSecret, digests), stream, Trojan, n)
    ensures StartsAsTrojan(digests, stream) && n == 56
  {
    var rules := AsRoutingRules(encodedSecret, digests);
    var i :| 0 <= i < |rules| && rules[i].header <= stream && rules[i].protocol == Trojan && |rules[i].header| == n;
    TrojanRule(encodedSecret, digests, i);
    assert |Hex(digests[i - 1])| == 56 && stream[..56] == Hex(digests[i - 1]);
    HexSpells(stream[..56], digests[i - 1]);
  }

  lemma HiddenlinkMatches(encodedSecret: Bytes, digests: seq<Bytes>, stream: Bytes)
    ensures var rules, n := AsRoutingRules(encodedSecret, digests), |SecretHeader(encodedSecret)|;
      && (SecretHeader(encodedSecret) <= stream <==> Matches(rules, stream, Hiddenlink, n))
      && forall m :: Matches(rules, stream, Hiddenlink, m) ==> m == n
  {
    var rules := AsRoutingRules(encodedSecret, digests);
    assert rules[0] == Rule(Hiddenlink, SecretHeader(encodedSecret));
  }

  /** Where a connection goes, by the bytes it starts with: to the Trojan upstream exactly if the bytes in time start
      with a password's header; to the tunnel or its handshake's errors if they start with the secret; to the web server
      exactly if the stream starts with neither, and has not failed or run out of time before that was clear. */
  lemma FirstBytesDecide(
    encodedSecret: Bytes, digests: seq<Bytes>, alpn: Alpn, input: Input, failed: bool, r: Served)
    requires forall i :: 0 <= i < |digests| ==> |digests[i]| == DIGEST_SIZE
    requires !alpn.OtherProtocol? && ServedRight(AsRoutingRules(encodedSecret, digests), alpn, input, failed, r)
    ensures r.ProxiedToTrojan? <==> StartsAsTrojan(digests, input.seen)
    ensures SecretHeader(encodedSecret) <= input.seen ==> r.Tunnelled? || r.Dropped? || r.TimedOut?
    ensures r.Tunnelled? ==> SecretHeader(encodedSecret) <= input.seen
    ensures r.ProxiedToHttp? <==>
      && !StartsAsTrojan(digests, input.seen + input.late)
      && !(SecretHeader(encodedSecret) <= input.seen + input.late)
      && (Undecided(AsRoutingRules(encodedSecret, digests), input.seen) ==> input.stop == Ends(Eof))
  {
    var rules, n := AsRoutingRules(encodedSecret, digests), |SecretHeader(encodedSecret)|;
    ConfiguredRulesAreUnambiguous(encodedSecret, digests);
    TrojanMatches(encodedSecret, digests, input.seen);
    TrojanMatches(encodedSecret, digests, input.seen + input.late);
    forall stream, m: nat | Matches(rules, stream, Trojan, m)
      ensures StartsAsTrojan(digests, stream) && m == 56
    {
      MatchIsTrojan(encodedSecret, digests, stream, m);
    }
    HiddenlinkMatches(encodedSecret, digests, input.seen);
    HiddenlinkMatches(encodedSecret, digests, input.seen + input.late);
    OneHeaderMatches(rules, input, Trojan, 56);
    OneHeaderMatches(rules, input, Hiddenlink, n);
  }

  /** A whole header among the bytes in time leaves nothing open, is not undone by more bytes, and rules out the
      others. */
  lemma OneHeaderMatches(rules: seq<Rule>, input: Input, p: Protocol, n: nat)
    requires Unambiguous(rules)
    ensures Matches(rules, input.seen, p, n) ==>
      && Matches(rules, input.seen + input.late, p, n) && !Undecided(rules, input.seen)
      && forall q, m :: Matches(rules, input.seen, q, m) ==> q == p && m == n
  {
    if Matches(rules, input.seen, p, n) {
      MatchGrows(rules, input.seen, input.late, p, n);
      MatchedIsDecided(rules, input.seen, p, n);
      forall q, m | Matches(rules, input.seen, q, m)
        ensures q == p && m == n
      {
        MatchIsUnique(rules, input.seen, p, n, q, m);
      }
    }
  }

  /** End to end for a Trojan client: of every configured password, and whatever follows and however it is chunked, a
      stream whose first 56 bytes come in time and spell the digest goes to the Trojan upstream, from its first byte,
      and nowhere else. */
  method ServeTrojanClient(
    connection: Connection, alpn: Alpn, encodedSecret: Bytes, digests: seq<Bytes>, http: Connection, trojan: Connection,
    tunnel: TunDevice, randomResponse: Bytes, randomGoodbye: Bytes, ghost i: nat)
    returns (r: Served)
    requires connection != http && connection != trojan && http != trojan && !alpn.OtherProtocol?
    requires forall i :: 0 <= i < |digests| ==> |digests[i]| == DIGEST_SIZE
    requires 70 <= |randomResponse| <= 350 && 200 <= |randomGoodbye| <= MTU - 3
    requires i < |digests| && 56 <= |connection.InTime()| && Spells(connection.InTime()[..56], digests[i])
    modifies connection`pending, connection`prompt, connection`lastChunk, connection`written, connection`failures,
      tunnel
    modifies http`written, http`shut, http`failures, trojan`written, trojan`shut, trojan`failures
    ensures r.ProxiedToTrojan?
    ensures r.complete <==> trojan.failures == old(trojan.failures) && connection.end.Eof?
    ensures r.complete ==> trojan.written == old(trojan.written) + old(connection.pending) && trojan.shut
    ensures http.written == old(http.written) && tunnel.packets == old(tunnel.packets)
  {
    ghost var input, failures := InputOf(connection), connection.failures;
    r := Serve(connection, alpn, encodedSecret, digests, http, trojan, tunnel, randomResponse, randomGoodbye);
    FirstBytesDecide(encodedSecret, digests, alpn, input, connection.failures != failures, r);
  }

  lemma ClientHeader(
    encodedSecret: Bytes, digests: seq<Bytes>, flags: Flags, name: Bytes, padding: Bytes,
    packets: seq<Bytes>, last: Bytes, cut: nat, input: Input)
    requires |name| <= 255 && |padding| <= 2000 && cut < |last|
    requires input.seen + input.late == ClientStream(encodedSecret, flags, name, padding, packets, last, cut)
    ensures var rules := AsRoutingRules(encodedSecret, digests);
      exists i :: 0 <= i < |rules| && rules[i].header <= input.seen + input.late
  {
    var rules := AsRoutingRules(encodedSecret, digests);
    assert rules[0].header <= input.seen + input.late;
  }
}
