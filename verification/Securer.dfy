/** The datagram layout and the peer-session cache of src/transport/udp/securer.rs, over an abstract block cipher and an
    abstract AEAD. */
module Securer {
  import opened Wire

  const HEADER_SIZE: nat := 16
  const TAG_SIZE: nat := 16

  /** What key derivation and the two ciphers do, for one secret. A session's AEAD cipher is known by the handle
      `derive` gives; `open` answers None when authentication fails. */
  datatype Crypto = Crypto(
    encryptBlock: Bytes -> Bytes, decryptBlock: Bytes -> Bytes, derive: nat -> int,
    seal: (int, Bytes, Bytes) -> Bytes, open: (int, Bytes, Bytes) -> Option<Bytes>)

  predicate BlockOk(c: Crypto, b: Bytes) {
    |b| == HEADER_SIZE ==>
      |c.encryptBlock(b)| == |c.decryptBlock(b)| == HEADER_SIZE && c.decryptBlock(c.encryptBlock(b)) == b
  }

  predicate SealOk(c: Crypto, k: int, n: Bytes, p: Bytes) {
    |c.seal(k, n, p)| == |p| + TAG_SIZE && c.open(k, n, c.seal(k, n, p)) == Some(p)
  }

  predicate OpenOk(c: Crypto, k: int, n: Bytes, d: Bytes) {
    c.open(k, n, d).Some? ==> |c.open(k, n, d).value| + TAG_SIZE == |d|
  }

  /** The sizes and inverses the code relies on. */
  ghost predicate Sound(c: Crypto) {
    && (forall b: Bytes :: BlockOk(c, b))
    && (forall k: int, n: Bytes, p: Bytes :: SealOk(c, k, n, p))
    && (forall k: int, n: Bytes, d: Bytes :: OpenOk(c, k, n, d))
  }

  // ---------------------------------------------------------------- big-endian integers

  function Pow256(k: nat): nat {
    if k == 0 then 1 else 256 * Pow256(k - 1)
  }

  function Put(n: nat, k: nat): (r: Bytes)
    ensures |r| == k
  {
    if k == 0 then [] else Put(n / 256, k - 1) + [n % 256]
  }

  function Get(s: Bytes): nat {
    if s == [] then 0 else 256 * Get(s[..|s| - 1]) + s[|s| - 1]
  }

  lemma {:induction false} GetPut(n: nat, k: nat)
    requires n < Pow256(k)
    ensures Get(Put(n, k)) == n
  {
    if k == 0 {
    } else {
      GetPut(n / 256, k - 1);
      assert Put(n, k)[..k - 1] == Put(n / 256, k - 1);
    }
  }

  /** The most significant byte first. */
  lemma U32Bytes(n: nat)
    requires n < 0x1_0000_0000
    ensures Put(n, 4) == [n / 0x100_0000, n / 0x1_0000 % 0x100, n / 0x100 % 0x100, n % 0x100]
  {
    var r := Put(n, 4);
    assert r[3] == n % 256;
    assert r[2] == Put(n / 256, 3)[2] == n / 256 % 256;
    assert r[1] == Put(n / 256, 3)[1] == Put(n / 256 / 256, 2)[1] == n / 256 / 256 % 256;
    assert r[0] == Put(n / 256, 3)[0] == Put(n / 256 / 256, 2)[0] == Put(n / 256 / 256 / 256, 1)[0];
    assert Put(n / 256 / 256 / 256, 1)[0] == n / 256 / 256 / 256 % 256;
  }

  /** The more significant half first. */
  lemma {:induction false} PutHalves(hi: nat, lo: nat, j: nat, k: nat)
    requires lo < Pow256(k)
    ensures Put(hi * Pow256(k) + lo, j + k) == Put(hi, j) + Put(lo, k)
    decreases k
  {
    if k == 0 {
    } else {
      var n := hi * Pow256(k) + lo;
      assert n == 256 * (hi * Pow256(k - 1)) + lo;
      assert n / 256 == hi * Pow256(k - 1) + lo / 256 && n % 256 == lo % 256;
      PutHalves(hi, lo / 256, j, k - 1);
    }
  }

  // ---------------------------------------------------------------- the layout

  const U32: nat := 0x1_0000_0000

  predicate IsU64(n: nat) {
    n < Pow256(8)
  }

  function Header(sessionId: nat, timestamp: nat, packetId: nat): (r: Bytes)
    ensures |r| == HEADER_SIZE
  {
    Put(sessionId, 8) + Put(timestamp, 4) + Put(packetId, 4)
  }

  lemma U32Fits(n: nat)
    ensures n < U32 <==> n < Pow256(4)
  {
    assert Pow256(4) == 256 * (256 * (256 * (256 * Pow256(0))));
  }

  lemma HeaderFields(sessionId: nat, timestamp: nat, packetId: nat)
    requires IsU64(sessionId) && timestamp < U32
    ensures var h := Header(sessionId, timestamp, packetId);
      Get(h[..8]) == sessionId && Get(h[8..12]) == timestamp
  {
    var h := Header(sessionId, timestamp, packetId);
    assert h[..8] == Put(sessionId, 8) && h[8..12] == Put(timestamp, 4);
    U32Fits(timestamp);
    GetPut(sessionId, 8);
    GetPut(timestamp, 4);
  }

  /** The packet number is in the header, and with the timestamp and half of the session makes up the nonce. */
  lemma PacketIdField(sessionId: nat, timestamp: nat, packetId: nat)
    requires packetId < U32
    ensures var h := Header(sessionId, timestamp, packetId);
      Get(h[12..]) == packetId && h[4..16] == h[4..12] + h[12..] && h[4..16][8..] == h[12..]
  {
    var h := Header(sessionId, timestamp, packetId);
    assert h[12..] == Put(packetId, 4);
    U32Fits(packetId);
    GetPut(packetId, 4);
  }

  /** The datagram that carries a payload: the encrypted header, then the payload sealed under a nonce from the
      header. */
  function Encrypted(c: Crypto, sessionId: nat, timestamp: nat, packetId: nat, payload: Bytes): Bytes {
    var header := Header(sessionId, timestamp, packetId);
    c.encryptBlock(header) + c.seal(c.derive(sessionId), header[4..16], payload)
  }

  datatype Decrypted = Payload(data: Bytes) | TooSmallPacket | InvalidPayload | InvalidTimestamp(diff: int)

  /** The accepted clock difference, in whole seconds. */
  predicate InWindow(timestamp: nat, now: nat) {
    -20 <= timestamp - now <= 10
  }

  /** Decryption without a cache: the cipher is derived anew from the session id in the datagram's header. */
  function Decryption(c: Crypto, datagram: Bytes, now: nat): Decrypted {
    if |datagram| <= HEADER_SIZE + TAG_SIZE then TooSmallPacket
    else
      var header := c.decryptBlock(datagram[..HEADER_SIZE]);
      if |header| != HEADER_SIZE then InvalidPayload
      else
        var timestamp := Get(header[8..12]);
        match c.open(c.derive(Get(header[..8])), header[4..16], datagram[HEADER_SIZE..])
        case None => InvalidPayload
        case Some(data) => if InWindow(timestamp, now) then Payload(data) else InvalidTimestamp(timestamp - now)
  }

  /** A payload survives exactly when it is not empty and its timestamp is still in the window when it is decrypted. */
  lemma DecryptEncrypted(c: Crypto, sessionId: nat, timestamp: nat, packetId: nat, payload: Bytes, now: nat)
    requires Sound(c) && IsU64(sessionId) && timestamp < U32
    ensures |Encrypted(c, sessionId, timestamp, packetId, payload)| == HEADER_SIZE + |payload| + TAG_SIZE
    ensures Decryption(c, Encrypted(c, sessionId, timestamp, packetId, payload), now) ==
            if payload == [] then TooSmallPacket
            else if -20 <= timestamp - now <= 10 then Payload(payload) else InvalidTimestamp(timestamp - now)
  {
    var header := Header(sessionId, timestamp, packetId);
    var datagram := Encrypted(c, sessionId, timestamp, packetId, payload);
    assert BlockOk(c, header) && SealOk(c, c.derive(sessionId), header[4..16], payload);
    assert datagram[..HEADER_SIZE] == c.encryptBlock(header);
    assert datagram[HEADER_SIZE..] == c.seal(c.derive(sessionId), header[4..16], payload);
    HeaderFields(sessionId, timestamp, packetId);
  }

  /** What the header cipher gives back, and what it leaves of the datagram. */
  lemma PlainHeader(c: Crypto, sessionId: nat, timestamp: nat, packetId: nat, payload: Bytes)
    requires Sound(c)
    ensures var d, h := Encrypted(c, sessionId, timestamp, packetId, payload), Header(sessionId, timestamp, packetId);
      && |d| == 16 + |payload| + 16 && c.decryptBlock(d[..16]) == h && h[4..] == h[4..16]
      && d[16..] == c.seal(c.derive(sessionId), h[4..16], payload)
  {
    var header := Header(sessionId, timestamp, packetId);
    assert BlockOk(c, header) && SealOk(c, c.derive(sessionId), header[4..16], payload);
    assert Encrypted(c, sessionId, timestamp, packetId, payload)[..16] == c.encryptBlock(header);
  }

  // ---------------------------------------------------------------- nonces

  datatype Message = Message(payload: Bytes, timestamp: nat)

  /** The datagrams one securer makes of a list of messages, one `Encrypt` after the other, its packet number being
      `packetId` at first. */
  function EncryptedAll(c: Crypto, sessionId: nat, packetId: nat, messages: seq<Message>): (r: seq<Bytes>)
    ensures |r| == |messages|
    decreases |messages|
  {
    if messages == [] then []
    else
      [Encrypted(c, sessionId, messages[0].timestamp, packetId, messages[0].payload)]
      + EncryptedAll(c, sessionId, (packetId + 1) % U32, messages[1..])
  }

  lemma NextId(packetId: nat, i: nat)
    requires packetId < U32 && 0 < i
    ensures ((packetId + 1) % U32 + (i - 1)) % U32 == (packetId + i) % U32
  {
    assert packetId + 1 == U32 ==> (packetId + i) % U32 == (i - 1) % U32;
  }

  lemma {:induction false} EncryptedAt(
    c: Crypto, sessionId: nat, packetId: nat, messages: seq<Message>, i: nat, id: nat)
    requires packetId < U32 && i < |messages| && id == (packetId + i) % U32
    ensures EncryptedAll(c, sessionId, packetId, messages)[i] ==
            Encrypted(c, sessionId, messages[i].timestamp, id, messages[i].payload)
    decreases i
  {
    if i == 0 {
      assert id == packetId;
    } else {
      var next, rest := (packetId + 1) % U32, messages[1..];
      NextId(packetId, i);
      EncryptedAt(c, sessionId, next, rest, i - 1, id);
      assert EncryptedAll(c, sessionId, packetId, messages)[i] == EncryptedAll(c, sessionId, next, rest)[i - 1];
    }
  }

  /** The nonce a receiver finds in a datagram. */
  function NonceOf(c: Crypto, datagram: Bytes): Bytes
    requires |datagram| >= 16 && |c.decryptBlock(datagram[..16])| == 16
  {
    c.decryptBlock(datagram[..16])[4..16]
  }

  lemma DistinctIds(packetId: nat, i: nat, j: nat)
    requires packetId < U32 && i < j < U32
    ensures (packetId + i) % U32 != (packetId + j) % U32
  {
    assert packetId + j < 2 * U32;
  }

  /** The datagram's header can be decrypted, and its nonce ends in the packet number. */
  ghost predicate Numbered(c: Crypto, datagram: Bytes, id: nat) {
    && 16 <= |datagram| && |c.decryptBlock(datagram[..16])| == 16
    && Get(NonceOf(c, datagram)[8..]) == id
  }

  lemma NumberedInTurn(c: Crypto, sessionId: nat, packetId: nat, messages: seq<Message>, i: nat)
    requires Sound(c) && packetId < U32 && i < |messages|
    ensures Numbered(c, EncryptedAll(c, sessionId, packetId, messages)[i], (packetId + i) % U32)
  {
    var m := (packetId + i) % U32;
    EncryptedAt(c, sessionId, packetId, messages, i, m);
    PlainHeader(c, sessionId, messages[i].timestamp, m, messages[i].payload);
    PacketIdField(sessionId, messages[i].timestamp, m);
  }

  /** A securer never uses a nonce twice in 2^32 datagrams, whatever it sends and when, and wherever its packet number
      begins. */
  lemma NoncesAreUnique(c: Crypto, sessionId: nat, packetId: nat, messages: seq<Message>, i: nat, j: nat)
    requires Sound(c) && packetId < U32
    requires i < j < |messages| <= U32
    ensures var all := EncryptedAll(c, sessionId, packetId, messages);
      && Numbered(c, all[i], (packetId + i) % U32) && Numbered(c, all[j], (packetId + j) % U32)
      && NonceOf(c, all[i]) != NonceOf(c, all[j])
  {
    NumberedInTurn(c, sessionId, packetId, messages, i);
    NumberedInTurn(c, sessionId, packetId, messages, j);
    DistinctIds(packetId, i, j);
  }

  // ---------------------------------------------------------------- the peer-session cache

  datatype PeerSession = PeerSession(id: nat, cipher: int)

  /** A cached cipher is the one derivation would give. */
  predicate CacheOk(c: Crypto, cache: Option<PeerSession>) {
    cache.Some? ==> cache.value.cipher == c.derive(cache.value.id)
  }

  /** The cipher for a session: the cached one if it is this session's, a derived one otherwise. */
  function Cipher(c: Crypto, cache: Option<PeerSession>, id: nat): int {
    if cache.Some? && cache.value.id == id then cache.value.cipher else c.derive(id)
  }

  /** The cache after a datagram: left alone unless the payload authenticates with the cipher at hand, and then
      replaced if the session is another one, whatever becomes of the timestamp. */
  function CacheStep(c: Crypto, cache: Option<PeerSession>, datagram: Bytes): Option<PeerSession> {
    if |datagram| <= HEADER_SIZE + TAG_SIZE then cache
    else
      var header := c.decryptBlock(datagram[..HEADER_SIZE]);
      if |header| != HEADER_SIZE then cache
      else
        var id := Get(header[..8]);
        if c.open(Cipher(c, cache, id), header[4..16], datagram[HEADER_SIZE..]).None? then cache
        else if cache.Some? && cache.value.id == id then cache
        else Some(PeerSession(id, c.derive(id)))
  }

  lemma CacheStepKeepsOk(c: Crypto, cache: Option<PeerSession>, datagram: Bytes)
    requires CacheOk(c, cache)
    ensures CacheOk(c, CacheStep(c, cache, datagram))
  {
  }

  method Overwrite(buf: array<byte>, at: nat, data: Bytes)
    requires at + |data| <= buf.Length
    modifies buf
    ensures buf[at..at + |data|] == data
  {
    forall i | 0 <= i < |data| {
      buf[at + i] := data[i];
    }
  }

  class UdpConnectionSecurer {
    const crypto: Crypto
    const sessionId: nat
    const cipher: int
    var packetId: nat
    var peerSession: Option<PeerSession>

    ghost predicate Valid()
      reads this
    {
      && Sound(crypto)
      && IsU64(sessionId) && packetId < U32 && cipher == crypto.derive(sessionId)
      && CacheOk(crypto, peerSession)
    }

    constructor (crypto: Crypto, randomSessionId: nat, randomPacketId: nat)
      requires Sound(crypto) && IsU64(randomSessionId) && randomPacketId < U32
      ensures Valid() && this.crypto == crypto && peerSession.None?
    {
      this.crypto := crypto;
      sessionId := randomSessionId;
      cipher := crypto.derive(randomSessionId);
      packetId := randomPacketId;
      peerSession := None;
    }

    /** The buffer is built up and then encrypted in place, the payload first: its nonce is the plain header's. */
    method Encrypt(payload: Bytes, timestamp: nat) returns (datagram: Bytes)
      requires Valid() && timestamp < U32
      modifies this`packetId
      ensures Valid() && packetId == (old(packetId) + 1) % U32
      ensures datagram == Encrypted(crypto, sessionId, timestamp, old(packetId), payload)
      ensures |datagram| == 16 + |payload| + 16
      ensures var h := crypto.decryptBlock(datagram[..16]);
        && |h| == 16 && Get(h[..8]) == sessionId && Get(h[8..12]) == timestamp && Get(h[12..]) == old(packetId)
        && datagram[16..] == crypto.seal(crypto.derive(sessionId), h[4..], payload)
    {
      var id := packetId;
      packetId := (packetId + 1) % U32;
      var buf := Put(sessionId, 8);
      buf := buf + Put(timestamp, 4);
      buf := buf + Put(id, 4);
      var header := buf;
      var sealed := crypto.seal(cipher, header[4..16], payload);
      datagram := crypto.encryptBlock(header) + sealed;
      PlainHeader(crypto, sessionId, timestamp, id, payload);
      PacketIdField(sessionId, timestamp, id);
      HeaderFields(sessionId, timestamp, id);
    }

    /** Authenticates with the cached cipher if it is this session's, with a new one otherwise, which then is cached. */
    method Open(id: nat, nonce: Bytes, sealed: Bytes) returns (plain: Option<Bytes>)
      requires Valid()
      modifies this`peerSession
      ensures Valid() && plain == crypto.open(crypto.derive(id), nonce, sealed)
      ensures plain == crypto.open(Cipher(crypto, old(peerSession), id), nonce, sealed)
      ensures peerSession ==
              if plain.Some? && !(old(peerSession).Some? && old(peerSession).value.id == id)
              then Some(PeerSession(id, crypto.derive(id))) else old(peerSession)
    {
      if peerSession.Some? && peerSession.value.id == id {
        plain := crypto.open(peerSession.value.cipher, nonce, sealed);
      } else {
        var session := PeerSession(id, crypto.derive(id));
        plain := crypto.open(session.cipher, nonce, sealed);
        if plain.Some? {
          peerSession := Some(session);
        }
      }
    }

    /** Decrypts the first `size` bytes of the buffer in place; the payload then lies between the header and the tag.
        With the cache or without it, the answer is the same. */
    method Decrypt(buf: array<byte>, size: nat, now: nat) returns (r: Decrypted)
      requires Valid() && size <= buf.Length
      modifies this`peerSession, buf
      ensures Valid() && r == Decryption(crypto, old(buf[..size]), now)
      ensures peerSession == CacheStep(crypto, old(peerSession), old(buf[..size]))
      ensures r.Payload? ==> HEADER_SIZE + TAG_SIZE < size && buf[HEADER_SIZE..size - TAG_SIZE] == r.data
    {
      if size <= HEADER_SIZE + TAG_SIZE {
        return TooSmallPacket;
      }
      ghost var datagram := buf[..size];
      var sealed := buf[HEADER_SIZE..size];
      assert datagram[..HEADER_SIZE] == buf[..HEADER_SIZE] && datagram[HEADER_SIZE..] == sealed;
      assert BlockOk(crypto, buf[..HEADER_SIZE]);
      var header := crypto.decryptBlock(buf[..HEADER_SIZE]);
      Overwrite(buf, 0, header);

      var id, timestamp, nonce := Get(header[..8]), Get(header[8..12]), header[4..16];
      var plain := Open(id, nonce, sealed);
      if plain.None? {
        return InvalidPayload;
      }
      assert OpenOk(crypto, crypto.derive(id), nonce, sealed);
      Overwrite(buf, HEADER_SIZE, plain.value);
      var timeDiff := timestamp - now;
      if !(-20 <= timeDiff <= 10) {
        return InvalidTimestamp(timeDiff);
      }
      return Payload(buf[HEADER_SIZE..size - TAG_SIZE]);
    }
  }

  // ---------------------------------------------------------------- histories

  datatype Arrival = Arrival(datagram: Bytes, now: nat)

  /** Decryption as the code does it, with whatever cipher the cache offers. */
  function CachedDecryption(c: Crypto, cache: Option<PeerSession>, datagram: Bytes, now: nat): Decrypted {
    if |datagram| <= HEADER_SIZE + TAG_SIZE then TooSmallPacket
    else
      var header := c.decryptBlock(datagram[..HEADER_SIZE]);
      if |header| != HEADER_SIZE then InvalidPayload
      else
        match c.open(Cipher(c, cache, Get(header[..8])), header[4..16], datagram[HEADER_SIZE..])
        case None => InvalidPayload
        case Some(data) =>
          var diff := Get(header[8..12]) - now;
          if -20 <= diff <= 10 then Payload(data) else InvalidTimestamp(diff)
  }

  /** The answers to a history of datagrams, in order, carrying the cache along. */
  function CachedAnswers(c: Crypto, cache: Option<PeerSession>, arrivals: seq<Arrival>): seq<Decrypted>
    decreases |arrivals|
  {
    if arrivals == [] then []
    else
      [CachedDecryption(c, cache, arrivals[0].datagram, arrivals[0].now)]
      + CachedAnswers(c, CacheStep(c, cache, arrivals[0].datagram), arrivals[1..])
  }

  /** With a cache that holds the right cipher, one datagram is answered as without it. */
  lemma CachedIsDerived(c: Crypto, cache: Option<PeerSession>, datagram: Bytes, now: nat)
    requires CacheOk(c, cache)
    ensures CachedDecryption(c, cache, datagram, now) == Decryption(c, datagram, now)
  {
  }

  /** The cache is transparent: after any history of new sessions, forgeries and stale datagrams, every answer is that
      of a decryptor that derives the cipher each time. */
  lemma {:induction false} CacheIsTransparent(c: Crypto, cache: Option<PeerSession>, arrivals: seq<Arrival>)
    requires CacheOk(c, cache)
    ensures |CachedAnswers(c, cache, arrivals)| == |arrivals|
    ensures forall i :: 0 <= i < |arrivals| ==>
              CachedAnswers(c, cache, arrivals)[i] == Decryption(c, arrivals[i].datagram, arrivals[i].now)
    decreases |arrivals|
  {
    if arrivals == [] {
    } else {
      CachedIsDerived(c, cache, arrivals[0].datagram, arrivals[0].now);
      CacheStepKeepsOk(c, cache, arrivals[0].datagram);
      CacheIsTransparent(c, CacheStep(c, cache, arrivals[0].datagram), arrivals[1..]);
    }
  }

  /** The session in the header of a datagram whose payload authenticates under that session's derived cipher. */
  function AuthenticSession(c: Crypto, datagram: Bytes): Option<nat> {
    if |datagram| <= HEADER_SIZE + TAG_SIZE then None
    else
      var header := c.decryptBlock(datagram[..HEADER_SIZE]);
      if |header| == HEADER_SIZE && c.open(c.derive(Get(header[..8])), header[4..16], datagram[HEADER_SIZE..]).Some?
      then Some(Get(header[..8])) else None
  }

  function LastAuthentic(c: Crypto, arrivals: seq<Arrival>): Option<nat> {
    if arrivals == [] then None
    else
      var last := AuthenticSession(c, arrivals[|arrivals| - 1].datagram);
      if last.Some? then last else LastAuthentic(c, arrivals[..|arrivals| - 1])
  }

  function CacheAfter(c: Crypto, arrivals: seq<Arrival>): Option<PeerSession> {
    if arrivals == [] then None
    else CacheStep(c, CacheAfter(c, arrivals[..|arrivals| - 1]), arrivals[|arrivals| - 1].datagram)
  }

  /** After any history the cache holds the session of the last datagram that was authentic, with its derived cipher: no
      forgery gets in, and no authentic session is missed, however stale its timestamp. */
  lemma {:induction false} CacheHoldsLastAuthentic(c: Crypto, arrivals: seq<Arrival>)
    ensures CacheAfter(c, arrivals) ==
            match LastAuthentic(c, arrivals)
            case Some(id) => Some(PeerSession(id, c.derive(id)))
            case None => None
  {
    if arrivals == [] {
    } else {
      CacheHoldsLastAuthentic(c, arrivals[..|arrivals| - 1]);
    }
  }
}
