/** Bytes, big-endian words and the result types shared by every module. */
module Common {

  type Byte = x: int | 0 <= x < 256

  type Bytes = seq<Byte>

  datatype Option<+T> = None | Some(value: T)

  /** What a handler returns for one request: the input it consumed, the answer, and whether to hang up. */
  datatype Reply = Reply(consumed: nat, bytes: Bytes, close: bool)

  const U32_LIMIT: nat := 0x1_0000_0000
  const U64_LIMIT: nat := 0x1_0000_0000_0000_0000

  function Min(a: nat, b: nat): (m: nat)
    ensures m <= a && m <= b && (m == a || m == b)
  {
    if a <= b then a else b
  }

  /** Four bytes in network order (htonl followed by memcpy). */
  function PutU32(n: nat): (b: Bytes)
    requires n < U32_LIMIT
    ensures |b| == 4
  {
    [n / 256 / 256 / 256, n / 256 / 256 % 256, n / 256 % 256, n % 256]
  }

  /** memcpy followed by ntohl. */
  function GetU32(b: Bytes): (n: nat)
    requires |b| == 4
    ensures n < U32_LIMIT
  {
    ((b[0] as int * 256 + b[1] as int) * 256 + b[2] as int) * 256 + b[3] as int
  }

  lemma U32RoundTrip(n: nat)
    requires n < U32_LIMIT
    ensures GetU32(PutU32(n)) == n
  {
    var p := n / 256;
    var q := p / 256;
    assert n == p * 256 + n % 256 && p == q * 256 + p % 256 && q == q / 256 * 256 + q % 256;
  }

  lemma U32RoundTripBack(b: Bytes)
    requires |b| == 4
    ensures PutU32(GetU32(b)) == b
  {
    var q := b[0] as int * 256 + b[1] as int;
    var p := q * 256 + b[2] as int;
    assert GetU32(b) / 256 == p && p / 256 == q && q / 256 == b[0];
  }

  /** The concatenation of a list of byte strings. */
  function Flatten(parts: seq<Bytes>): (b: Bytes)
  {
    if parts == [] then [] else parts[0] + Flatten(parts[1..])
  }

  lemma {:induction false} FlattenAppend(a: seq<Bytes>, b: seq<Bytes>)
    ensures Flatten(a + b) == Flatten(a) + Flatten(b)
  {
    if a == [] {
      assert a + b == b;
    } else {
      assert (a + b)[1..] == a[1..] + b;
      FlattenAppend(a[1..], b);
    }
  }
}
