/** Bytes, big-endian fields and the constants every protocol layer shares. */
module Wire {

  type byte = b: int | 0 <= b < 256

  type Bytes = seq<byte>

  datatype Option<+T> = None | Some(value: T)

  /** How a byte stream stops once its last delivered byte has been read:
      an orderly close, or an I/O error (which includes an error reported by the writing half). */
  datatype End = Eof | Fault

  const MTU: nat := 1500
  const IPV4_HEADER_SIZE: nat := 20
  const IPV6_HEADER_SIZE: nat := 40
  const UDP_HEADER_SIZE: nat := 8

  function U16(hi: byte, lo: byte): nat {
    256 * hi + lo
  }

  /** The two bytes of a big-endian u16. */
  function PutU16(n: nat): (r: Bytes)
    requires n < 65536
    ensures |r| == 2 && U16(r[0], r[1]) == n
  {
    [n / 256, n % 256]
  }

  /** The two bytes of `n`, the more significant one first. */
  predicate BigEndian(hi: byte, lo: byte, n: nat) {
    n < 65536 && hi == n / 256 && lo == n % 256
  }

  function Min(a: nat, b: nat): nat {
    if a < b then a else b
  }

  function Max(a: nat, b: nat): nat {
    if a < b then b else a
  }

  lemma ConcatAssoc<T>(a: seq<T>, b: seq<T>, c: seq<T>)
    ensures a + (b + c) == a + b + c
  {
  }

  /** The bytes of a list of chunks, in order. */
  function Flatten(chunks: seq<Bytes>): Bytes {
    if chunks == [] then [] else chunks[0] + Flatten(chunks[1..])
  }

  lemma {:induction false} FlattenAppend(a: seq<Bytes>, b: seq<Bytes>)
    ensures Flatten(a + b) == Flatten(a) + Flatten(b)
  {
    if a == [] {
      assert a + b == b;
    } else {
      assert (a + b)[0] == a[0] && (a + b)[1..] == a[1..] + b;
      FlattenAppend(a[1..], b);
    }
  }

  lemma FlattenCons(p: Bytes, a: seq<Bytes>)
    ensures Flatten([p] + a) == p + Flatten(a)
  {
    assert ([p] + a)[1..] == a;
  }

  lemma FlattenSnoc(a: seq<Bytes>, p: Bytes)
    ensures Flatten(a + [p]) == Flatten(a) + p
  {
    FlattenAppend(a, [p]);
    assert Flatten([p]) == p + Flatten([]);
  }
}
