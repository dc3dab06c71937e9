/** Telling tunnel clients from everyone else by the first bytes of a connection,
    src/transport/http/server/router.rs. */
module Routing {
  import opened Wire
  import opened ByteSource

  datatype Protocol = Hiddenlink | Trojan

  datatype Rule = Rule(protocol: Protocol, header: Bytes)

  function Ascii(s: string): (r: Bytes)
    requires forall i :: 0 <= i < |s| ==> s[i] < 128 as char
    ensures |r| == |s| && forall i :: 0 <= i < |s| ==> r[i] == s[i] as int
  {
    seq(|s|, i requires 0 <= i < |s| => s[i] as int)
  }

  /** The request line's beginning; the URL-encoded secret follows it. */
  const SECRET_LINE: string := "POST /hiddenlink/v1/connect?secret="

  function SecretHeader(encodedSecret: Bytes): Bytes {
    Ascii(SECRET_LINE) + encodedSecret
  }

  function HexDigit(n: nat): byte
    requires n < 16
  {
    if n < 10 then '0' as int + n else 'a' as int + (n - 10)
  }

  const DIGEST_SIZE: nat := 28

  /** A Trojan header: the SHA-224 digest of the password in lower-case hexadecimal. */
  function Hex(digest: Bytes): (r: Bytes)
    ensures |r| == 2 * |digest|
    ensures forall i :: 0 <= i < |r| ==> '0' as int <= r[i] <= '9' as int || 'a' as int <= r[i] <= 'f' as int
  {
    if digest == [] then []
    else [HexDigit(digest[0] / 16), HexDigit(digest[0] % 16)] + Hex(digest[1..])
  }

  /** The value of a lower-case hexadecimal digit, by its ASCII code. */
  function DigitValue(b: byte): Option<nat> {
    if 48 <= b <= 57 then Some(b - 48) else if 97 <= b <= 102 then Some(b - 87) else None
  }

  predicate SpellsByte(hi: byte, lo: byte, b: byte) {
    DigitValue(hi).Some? && DigitValue(lo).Some? && 16 * DigitValue(hi).value + DigitValue(lo).value == b
  }

  /** Two digits a byte, the more significant one first. */
  predicate Spells(text: Bytes, digest: Bytes) {
    |text| == 2 * |digest|
    && forall i :: 0 <= i < |digest| ==> SpellsByte(text[2 * i], text[2 * i + 1], digest[i])
  }

  lemma HexDigits(hi: byte, lo: byte, b: byte)
    ensures SpellsByte(hi, lo, b) <==> hi == HexDigit(b / 16) && lo == HexDigit(b % 16)
  {
  }

  lemma SpellsRest(text: Bytes, digest: Bytes)
    requires digest != [] && |text| == 2 * |digest|
    ensures Spells(text, digest) <==> SpellsByte(text[0], text[1], digest[0]) && Spells(text[2..], digest[1..])
  {
    assert SpellsByte(text[2 * 0], text[2 * 0 + 1], digest[0]) <==> SpellsByte(text[0], text[1], digest[0]);
    forall i | 0 < i < |digest|
      ensures SpellsByte(text[2 * i], text[2 * i + 1], digest[i])
              <==> SpellsByte(text[2..][2 * (i - 1)], text[2..][2 * (i - 1) + 1], digest[1..][i - 1])
    {
    }
    if Spells(text[2..], digest[1..]) && SpellsByte(text[0], text[1], digest[0]) {
      forall i | 0 <= i < |digest|
        ensures SpellsByte(text[2 * i], text[2 * i + 1], digest[i])
      {
        if 0 < i {
          assert SpellsByte(text[2..][2 * (i - 1)], text[2..][2 * (i - 1) + 1], digest[1..][i - 1]);
        }
      }
    }
    if Spells(text, digest) {
      forall i | 0 <= i < |digest[1..]|
        ensures SpellsByte(text[2..][2 * i], text[2..][2 * i + 1], digest[1..][i])
      {
        assert SpellsByte(text[2 * (i + 1)], text[2 * (i + 1) + 1], digest[i + 1]);
      }
    }
  }

  /** The header is the one text that spells the digest. */
  lemma {:induction false} HexSpells(text: Bytes, digest: Bytes)
    ensures Spells(text, digest) <==> text == Hex(digest)
  {
    if digest == [] {
    } else if |text| == 2 * |digest| {
      HexSpells(text[2..], digest[1..]);
      SpellsRest(text, digest);
      HexDigits(text[0], text[1], digest[0]);
      assert text == [text[0], text[1]] + text[2..];
    }
  }

  function TrojanRules(digests: seq<Bytes>): (r: seq<Rule>)
    ensures |r| == |digests|
    ensures forall i :: 0 <= i < |r| ==> r[i] == Rule(Trojan, Hex(digests[i]))
  {
    seq(|digests|, i requires 0 <= i < |digests| => Rule(Trojan, Hex(digests[i])))
  }

  function AsRoutingRules(encodedSecret: Bytes, digests: seq<Bytes>): seq<Rule> {
    [Rule(Hiddenlink, SecretHeader(encodedSecret))] + TrojanRules(digests)
  }

  /** No header is empty, and none is a prefix of another one unless both are the same rule. */
  ghost predicate Unambiguous(rules: seq<Rule>) {
    && (forall i :: 0 <= i < |rules| ==> rules[i].header != [])
    && (forall i, j ::
          0 <= i < |rules| && 0 <= j < |rules| && rules[i].header <= rules[j].header ==> rules[i] == rules[j])
  }

  lemma EqualLengthPrefix(a: Bytes, b: Bytes)
    requires a <= b && |a| == |b|
    ensures a == b
  {
  }

  predicate IsHex(b: byte) {
    '0' as int <= b <= '9' as int || 'a' as int <= b <= 'f' as int
  }

  lemma HeaderStarts(encodedSecret: Bytes, digest: Bytes)
    requires |digest| == DIGEST_SIZE
    ensures !(SecretHeader(encodedSecret) <= Hex(digest)) && !(Hex(digest) <= SecretHeader(encodedSecret))
    ensures SecretHeader(encodedSecret) != [] && Hex(digest) != []
  {
    assert SecretHeader(encodedSecret)[0] == SECRET_LINE[0] as int == 'P' as int;
    assert IsHex(Hex(digest)[0]);
  }

  lemma OneAndEquallyLong(first: Rule, others: seq<Rule>, size: nat)
    requires 0 < size && first.header != []
    requires forall i :: 0 <= i < |others| ==> |others[i].header| == size && others[i].protocol == Trojan
    requires forall i ::
               0 <= i < |others| ==> !(first.header <= others[i].header) && !(others[i].header <= first.header)
    ensures Unambiguous([first] + others)
  {
    var rules := [first] + others;
    forall i, j | 0 <= i < |rules| && 0 <= j < |rules| && rules[i].header <= rules[j].header
      ensures rules[i] == rules[j]
    {
      if 0 < i && 0 < j {
        EqualLengthPrefix(others[i - 1].header, others[j - 1].header);
      }
    }
  }

  /** The rules of every configuration are unambiguous: an HTTP method starts with a capital letter, all Trojan
      headers are equally long lower-case hexadecimal. */
  lemma ConfiguredRulesAreUnambiguous(encodedSecret: Bytes, digests: seq<Bytes>)
    requires forall i :: 0 <= i < |digests| ==> |digests[i]| == DIGEST_SIZE
    ensures Unambiguous(AsRoutingRules(encodedSecret, digests))
  {
    var first, others := Rule(Hiddenlink, SecretHeader(encodedSecret)), TrojanRules(digests);
    HeaderStarts(encodedSecret, seq(DIGEST_SIZE, _ => 0));
    forall i | 0 <= i < |others|
      ensures |others[i].header| == 2 * DIGEST_SIZE && others[i].protocol == Trojan
      ensures !(first.header <= others[i].header) && !(others[i].header <= first.header)
    {
      HeaderStarts(encodedSecret, digests[i]);
    }
    OneAndEquallyLong(first, others, 2 * DIGEST_SIZE);
  }

  /** Some rule's whole header starts the stream. */
  ghost predicate Matches(rules: seq<Rule>, stream: Bytes, protocol: Protocol, size: nat) {
    exists i :: 0 <= i < |rules| && rules[i].header <= stream && rules[i].protocol == protocol
      && |rules[i].header| == size
  }

  /** More bytes could still complete some rule's header. */
  ghost predicate Undecided(rules: seq<Rule>, stream: Bytes) {
    stream == [] || exists i :: 0 <= i < |rules| && stream < rules[i].header
  }

  lemma Comparable(a: Bytes, b: Bytes, s: Bytes)
    requires a <= s && b <= s
    ensures a <= b || b <= a
  {
  }

  /** At most one protocol and header size can match a stream. */
  lemma MatchIsUnique(rules: seq<Rule>, stream: Bytes, p: Protocol, n: nat, q: Protocol, m: nat)
    requires Unambiguous(rules) && Matches(rules, stream, p, n) && Matches(rules, stream, q, m)
    ensures p == q && n == m
  {
    var i :| 0 <= i < |rules| && rules[i].header <= stream && rules[i].protocol == p && |rules[i].header| == n;
    var j :| 0 <= j < |rules| && rules[j].header <= stream && rules[j].protocol == q && |rules[j].header| == m;
    Comparable(rules[i].header, rules[j].header, stream);
  }

  lemma FoundMatches(rules: seq<Rule>, buf: Bytes, stream: Bytes, rule: Rule)
    requires rule in rules && rule.header <= buf <= stream
    ensures Matches(rules, stream, rule.protocol, |rule.header|)
  {
    var i :| 0 <= i < |rules| && rules[i] == rule;
    assert rules[i].header <= stream;
  }

  lemma NeverMatches(rules: seq<Rule>, buf: Bytes, stream: Bytes)
    requires buf <= stream
    requires forall i :: 0 <= i < |rules| ==> !(rules[i].header <= buf) && !(buf < rules[i].header)
    ensures forall p, n :: !Matches(rules, stream, p, n)
  {
    forall i | 0 <= i < |rules|
      ensures !(rules[i].header <= stream)
    {
      if rules[i].header <= stream {
        Comparable(rules[i].header, buf, stream);
      }
    }
  }

  /** Bytes after which everything is still open hold no whole header, and any part of them leaves everything open. */
  lemma OpenUntil(rules: seq<Rule>, buf: Bytes, seen: Bytes)
    requires Unambiguous(rules) && Undecided(rules, seen) && buf <= seen
    ensures forall i :: 0 <= i < |rules| ==> !(rules[i].header <= buf)
    ensures Undecided(rules, buf)
  {
    if seen != [] {
      var i :| 0 <= i < |rules| && seen < rules[i].header;
      assert buf < rules[i].header;
      assert forall j :: 0 <= j < |rules| && rules[j].header <= buf ==> rules[j].header <= rules[i].header;
    }
  }

  /** A whole header, or no possible one, at the front of the bytes seen: not everything is open. */
  lemma NotOpen(rules: seq<Rule>, buf: Bytes, seen: Bytes)
    requires Unambiguous(rules) && buf <= seen
    requires (exists i :: 0 <= i < |rules| && rules[i].header <= buf) || !Undecided(rules, buf)
    ensures !Undecided(rules, seen)
  {
    if Undecided(rules, seen) {
      OpenUntil(rules, buf, seen);
    }
  }

  datatype Route = Routed(protocol: Protocol, headerSize: nat) | Unknown | IoFailure | TimedOut

  /** What the router must answer to a stream of which the bytes `seen` come in time, and then `stop`. */
  ghost predicate Right(rules: seq<Rule>, seen: Bytes, stream: Bytes, stop: Stop, r: Route) {
    && (r.Routed? ==> Matches(rules, seen, r.protocol, r.headerSize))
    && (r.Unknown? ==> forall p, n :: !Matches(rules, stream, p, n))
    && (r.IoFailure? <==> stop == Ends(Fault) && Undecided(rules, seen))
    && (r.TimedOut? <==> stop.Stalls? && Undecided(rules, seen))
  }

  /** With everything still open, what stops the stream decides. */
  lemma StopDecides(rules: seq<Rule>, seen: Bytes, stream: Bytes, stop: Stop)
    requires Unambiguous(rules) && Undecided(rules, seen) && (stop == Ends(Eof) ==> seen == stream)
    ensures Right(rules, seen, stream, stop,
                  if stop.Stalls? then TimedOut else if stop.end.Fault? then IoFailure else Unknown)
  {
    match stop
    case Stalls =>
    case Ends(Fault) =>
    case Ends(Eof) => OpenUntil(rules, seen, seen);
  }

  class Router {
    var buf: Bytes
    const rules: seq<Rule>

    constructor (rules: seq<Rule>)
      ensures buf == [] && this.rules == rules
    {
      buf := [];
      this.rules := rules;
    }

    /** One pass over the rules with the bytes at hand: a whole header, or whether any header may still be coming. */
    method Check() returns (found: Option<Rule>, partialMatch: bool)
      ensures found.Some? ==> found.value in rules && found.value.header <= buf
      ensures found.None? ==> forall i :: 0 <= i < |rules| ==> !(rules[i].header <= buf)
      ensures found.None? ==> (partialMatch <==> exists i :: 0 <= i < |rules| && buf < rules[i].header)
    {
      partialMatch := false;
      for i := 0 to |rules|
        invariant forall j :: 0 <= j < i ==> !(rules[j].header <= buf)
        invariant partialMatch <==> exists j :: 0 <= j < i && buf < rules[j].header
      {
        var header := rules[i].header;
        var size := Min(|buf|, |header|);
        if buf[..size] == header[..size] {
          if size == |header| {
            return Some(rules[i]), partialMatch;
          }
          partialMatch := true;
        }
      }
      return None, partialMatch;
    }

    /** What the bytes at hand decide, if anything. */
    method Decide(ghost seen: Bytes, ghost stream: Bytes, ghost stop: Stop) returns (r: Option<Route>)
      requires Unambiguous(rules) && buf != [] && buf <= seen && buf <= stream
      ensures r.Some? ==> Right(rules, seen, stream, stop, r.value)
      ensures r.Some? && r.value.Routed? ==> r.value.headerSize <= |buf|
      ensures r.None? ==> Undecided(rules, buf)
    {
      var found, partialMatch := Check();
      if found.Some? {
        FoundMatches(rules, buf, seen, found.value);
        NotOpen(rules, buf, seen);
        return Some(Routed(found.value.protocol, |found.value.header|));
      }
      if !partialMatch {
        NeverMatches(rules, buf, stream);
        NotOpen(rules, buf, seen);
        return Some(Unknown);
      }
      return None;
    }

    /** Reads on into the buffer. */
    method Extend(connection: Connection) returns (r: Option<ReadResult>)
      modifies this`buf, connection`pending, connection`prompt, connection`lastChunk
      ensures buf + connection.pending == old(buf + connection.pending)
      ensures buf + connection.InTime() == old(buf + connection.InTime())
      ensures connection.Late() == old(connection.Late()) && connection.StopsWith() == old(connection.StopsWith())
      ensures |connection.lastChunk| <= |buf| && buf[..|buf| - |connection.lastChunk|] == old(buf)
      ensures r.Some? && r.value.Data? ==> old(buf) < buf
      ensures !(r.Some? && r.value.Data?) ==> buf == old(buf) && connection.InTime() == []
      ensures r.None? ==> connection.StopsWith().Stalls?
      ensures r.Some? && !r.value.Data? ==>
        && connection.StopsWith() == Ends(connection.end) && connection.pending == []
        && r.value == if connection.end.Eof? then EndOfFile else IoError
    {
      ghost var before := buf;
      r := connection.ReadBuf();
      ghost var chunk := connection.lastChunk;
      ConcatAssoc(before, chunk, connection.pending);
      ConcatAssoc(before, chunk, connection.InTime());
      if r.Some? && r.value.Data? {
        buf := buf + r.value.chunk;
      } else {
        assert before + [] == before;
      }
      assert buf == before + chunk;
      assert (before + chunk)[..|before|] == before;
    }

    /** The protocol is the one whose header starts the client's stream, however that is chunked; nothing read is
        lost; reading stops with the read that decides; and the timer fires exactly when nothing that comes before it
        decides. */
    method Route(connection: Connection) returns (r: Route)
      requires buf == [] && Unambiguous(rules)
      modifies this`buf, connection`pending, connection`prompt, connection`lastChunk
      ensures buf + connection.pending == old(connection.pending)
        && buf + connection.InTime() == old(connection.InTime())
      ensures connection.Late() == old(connection.Late()) && connection.StopsWith() == old(connection.StopsWith())
      ensures Right(rules, old(connection.InTime()), old(connection.pending), connection.StopsWith(), r)
      ensures r.Routed? ==> r.headerSize <= |buf|
      ensures |connection.lastChunk| <= |buf| && Undecided(rules, buf[..|buf| - |connection.lastChunk|])
    {
      ghost var stream, seen := connection.pending, connection.InTime();
      ghost var late, stop := connection.Late(), connection.StopsWith();
      while true
        invariant buf + connection.pending == stream && buf + connection.InTime() == seen
        invariant connection.Late() == late && connection.StopsWith() == stop
        invariant Undecided(rules, buf)
        decreases |connection.pending|
      {
        var result := Extend(connection);
        assert buf + [] == buf;
        if result.None? || !result.value.Data? {
          StopDecides(rules, seen, stream, stop);
        }
        if result.None? {
          return TimedOut;
        }
        match result.value {
          case IoError =>
            return IoFailure;
          case EndOfFile =>
            return Unknown;
          case Data(_) =>
        }

        var decision := Decide(seen, stream, stop);
        if decision.Some? {
          return decision.value;
        }
      }
    }
  }
}
