/** The RPC header: `KVR2`, payload length and a nonzero 64-bit request identifier. */
module RpcProtocol {
  import opened Common

  const RPC_HEADER: nat := 16
  const RPC_TAG: Bytes := [0x4b, 0x56, 0x52, 0x32]  // "KVR2"

  /** The low `n` bytes of `id`, most significant first. */
  function PutWord(id: nat, n: nat): (b: Bytes)
    ensures |b| == n
    decreases n
  {
    if n == 0 then [] else PutWord(id / 256, n - 1) + [id % 256]
  }

  function GetWord(b: Bytes): nat
  {
    if b == [] then 0 else GetWord(b[..|b| - 1]) * 256 + b[|b| - 1] as int
  }

  function Pow256(n: nat): (p: nat)
    ensures p >= 1
  {
    if n == 0 then 1 else 256 * Pow256(n - 1)
  }

  lemma {:induction false} WordRoundTrip(id: nat, n: nat)
    requires id < Pow256(n)
    ensures GetWord(PutWord(id, n)) == id
    decreases n
  {
    if n > 0 {
      assert id / 256 < Pow256(n - 1);
      WordRoundTrip(id / 256, n - 1);
      assert PutWord(id, n)[..n - 1] == PutWord(id / 256, n - 1);
    }
  }

  lemma EightBytes()
    ensures Pow256(8) == U64_LIMIT
  {
    assert Pow256(2) == 0x1_0000;
    assert Pow256(4) == 0x1_0000_0000;
    assert Pow256(6) == 0x1_0000_0000_0000;
  }

  /** The length field holds the payload length cut to 32 bits. */
  function RpcFrame(id: nat, payload: Bytes): (b: Bytes)
    ensures |b| == RPC_HEADER + |payload|
  {
    RPC_TAG + PutU32(|payload| % U32_LIMIT) + PutWord(id, 8) + payload
  }

  /** The identifier field; zero stands for the error the program raises. */
  function IdOf(frame: Bytes): nat
  {
    if |frame| < RPC_HEADER then 0 else GetWord(frame[8..RPC_HEADER])
  }

  /** Writes the identifier backwards, low byte last. */
  method WriteId(id: nat) returns (word: array<Byte>)
    ensures fresh(word) && word.Length == 8 && word[..] == PutWord(id, 8)
  {
    word := new Byte[8];
    var rest, i := id, 8;
    assert word[8..] == [];
    while i > 0
      invariant 0 <= i <= 8
      invariant PutWord(rest, i) + word[i..] == PutWord(id, 8)
    {
      i := i - 1;
      word[i] := rest % 256;
      NextByte(rest, i, word[i + 1..]);
      assert word[i..] == [rest % 256] + word[i + 1..];
      rest := rest / 256;
    }
    assert word[0..] == word[..] && PutWord(rest, 0) + word[0..] == word[..];
  }

  lemma NextByte(rest: nat, i: nat, done: Bytes)
    ensures PutWord(rest / 256, i) + ([rest % 256] + done) == PutWord(rest, i + 1) + done
  {}

  /** Encoding, or `None` where the payload exceeds the limit. */
  method RpcEncode(id: nat, payload: Bytes, limit: nat) returns (r: Option<Bytes>)
    requires id < U64_LIMIT
    ensures r.Some? <==> |payload| <= limit
    ensures r.Some? ==> r.value == RpcFrame(id, payload)
  {
    hide PutWord;
    if |payload| > limit {
      return None;
    }
    var word := WriteId(id);
    r := Some(RPC_TAG + PutU32(|payload| % U32_LIMIT) + word[..] + payload);
  }

  /** The identifier of a frame, or `None` for the zero identifier. */
  method RpcId(frame: Bytes) returns (r: Option<nat>)
    requires |frame| >= RPC_HEADER
    ensures r == if IdOf(frame) == 0 then None else Some(IdOf(frame))
  {
    var id := 0;
    assert frame[8..8] == [];
    for i := 8 to RPC_HEADER
      invariant id == GetWord(frame[8..i])
    {
      assert frame[8..i + 1][..i - 8] == frame[8..i];
      id := id * 256 + frame[i] as int;
    }
    r := if id == 0 then None else Some(id);
  }

  /** The identifier survives the trip, whatever the payload. */
  lemma IdRoundTrip(id: nat, payload: Bytes)
    requires id < U64_LIMIT
    ensures IdOf(RpcFrame(id, payload)) == id
  {
    assert RpcFrame(id, payload)[8..16] == PutWord(id, 8);
    EightBytes();
    hide Pow256, PutWord, GetWord;
    WordRoundTrip(id, 8);
  }
}
