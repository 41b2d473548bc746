/** The KV frame: a 12-byte network-order header followed by the key and the value. */
module KvProtocol {
  import opened Common

  const MAGIC: nat := 0xCAFE
  const VERSION: Byte := 1
  const HEADER_SIZE: nat := 12
  const MAX_KEY_SIZE: nat := 64 * 1024
  const MAX_VALUE_SIZE: nat := 1024 * 1024
  const MAX_WIRE_VALUE_SIZE: nat := MAX_VALUE_SIZE + 64
  const MAX_FRAME_SIZE: nat := HEADER_SIZE + MAX_KEY_SIZE + MAX_WIRE_VALUE_SIZE

  datatype Command = Unknown | Set | Get | Del | Stats | Lookup | SetTtl

  function Code(c: Command): Byte
  {
    match c
    case Unknown => 0
    case Set => 1
    case Get => 2
    case Del => 3
    case Stats => 4
    case Lookup => 5
    case SetTtl => 6
  }

  function FromCode(b: Byte): (c: Command)
    ensures b <= 6 ==> Code(c) == b
  {
    if b == 1 then Set else if b == 2 then Get else if b == 3 then Del
    else if b == 4 then Stats else if b == 5 then Lookup else if b == 6 then SetTtl else Unknown
  }

  datatype Header = Header(magic: nat, version: Byte, command: Byte, keyLen: nat, valueLen: nat)

  predicate ValidHeader(h: Header)
  {
    && h.magic == MAGIC && h.version == VERSION && 1 <= h.command <= 6
    && h.keyLen <= MAX_KEY_SIZE && h.valueLen <= MAX_WIRE_VALUE_SIZE
  }

  function DecodeHeader(b: Bytes): (h: Header)
    requires |b| >= HEADER_SIZE
  {
    Header(b[0] as int * 256 + b[1] as int, b[2], b[3], GetU32(b[4..8]), GetU32(b[8..12]))
  }

  function HeaderBytes(command: Byte, keyLen: nat, valueLen: nat): (b: Bytes)
    requires keyLen < U32_LIMIT && valueLen < U32_LIMIT
    ensures |b| == HEADER_SIZE
  {
    [MAGIC / 256, MAGIC % 256, VERSION, command] + PutU32(keyLen) + PutU32(valueLen)
  }

  /** What `encode` accepts; anything else raises. */
  predicate Encodable(c: Command, key: Bytes, value: Bytes)
  {
    c != Unknown && |key| <= MAX_KEY_SIZE && |value| <= MAX_WIRE_VALUE_SIZE
  }

  function Frame(c: Command, key: Bytes, value: Bytes): (b: Bytes)
    requires Encodable(c, key, value)
    ensures |b| == HEADER_SIZE + |key| + |value| <= MAX_FRAME_SIZE
  {
    HeaderBytes(Code(c), |key|, |value|) + key + value
  }

  /** What a reader finds in the bytes: this command, key and value, and nothing else. */
  predicate Reads(b: Bytes, c: Command, key: Bytes, value: Bytes)
  {
    && |b| == HEADER_SIZE + |key| + |value| && DecodeHeader(b) == Header(MAGIC, VERSION, Code(c), |key|, |value|)
    && b[HEADER_SIZE..HEADER_SIZE + |key|] == key && b[HEADER_SIZE + |key|..] == value
  }

  /** Encoding, or `None` where the limits are exceeded; a reader gets back what was encoded. */
  function Encode(c: Command, key: Bytes, value: Bytes): (r: Option<Bytes>)
    ensures r.Some? <==> Encodable(c, key, value)
    ensures r.Some? ==> Reads(r.value, c, key, value)
  {
    if Encodable(c, key, value) then FrameReads(c, key, value); Some(Frame(c, key, value)) else None
  }

  lemma FrameReads(c: Command, key: Bytes, value: Bytes)
    requires Encodable(c, key, value)
    ensures Reads(Frame(c, key, value), c, key, value)
  {
    hide HeaderBytes, DecodeHeader;
    var h := HeaderBytes(Code(c), |key|, |value|);
    assert h + key + value == h + (key + value);
    HeaderRoundTrip(Code(c), |key|, |value|, key + value);
  }

  /** memcpy into a buffer. */
  method CopyInto(buffer: array<Byte>, at: nat, data: Bytes)
    requires at + |data| <= buffer.Length
    modifies buffer
    ensures buffer[..] == old(buffer[..at]) + data + old(buffer[at + |data|..])
  {
    forall i | 0 <= i < |data| {
      buffer[at + i] := data[i];
    }
    assert buffer[at..at + |data|] == data by {
      assert forall i :: 0 <= i < |data| ==> buffer[at + i] == data[i];
    }
  }

  /** The program's encoder: a buffer of the final size, filled field by field. */
  method EncodeMessage(c: Command, key: Bytes, value: Bytes) returns (r: Option<array<Byte>>)
    ensures r.Some? <==> Encodable(c, key, value)
    ensures r.Some? ==> fresh(r.value) && Some(r.value[..]) == Encode(c, key, value)
  {
    hide PutU32, DecodeHeader;
    if c == Unknown || |key| > MAX_KEY_SIZE || |value| > MAX_WIRE_VALUE_SIZE {
      return None;
    }
    var bytes := new Byte[HEADER_SIZE + |key| + |value|](_ => 0);
    CopyInto(bytes, 0, [MAGIC / 256, MAGIC % 256]);
    bytes[2] := VERSION;
    bytes[3] := Code(c);
    CopyInto(bytes, 4, PutU32(|key|));
    CopyInto(bytes, 8, PutU32(|value|));
    assert bytes[..HEADER_SIZE] == HeaderBytes(Code(c), |key|, |value|);
    ghost var header := bytes[..HEADER_SIZE];
    CopyInto(bytes, HEADER_SIZE, key);
    assert bytes[..HEADER_SIZE + |key|] == header + key;
    CopyInto(bytes, HEADER_SIZE + |key|, value);
    assert bytes[..] == header + key + value;
    r := Some(bytes);
  }

  lemma HeaderRoundTrip(command: Byte, keyLen: nat, valueLen: nat, rest: Bytes)
    requires keyLen < U32_LIMIT && valueLen < U32_LIMIT
    ensures DecodeHeader(HeaderBytes(command, keyLen, valueLen) + rest)
         == Header(MAGIC, VERSION, command, keyLen, valueLen)
  {
    var b := HeaderBytes(command, keyLen, valueLen) + rest;
    assert b[4..8] == PutU32(keyLen);
    assert b[8..12] == PutU32(valueLen);
    U32RoundTrip(keyLen);
    U32RoundTrip(valueLen);
    hide PutU32, GetU32;
  }

  /** Decoding an encoded frame gives back the command, the key and the value, whatever follows. */
  lemma FrameRoundTrip(c: Command, key: Bytes, value: Bytes, rest: Bytes)
    requires Encodable(c, key, value)
    ensures var b := Frame(c, key, value) + rest;
            var h := DecodeHeader(b);
            && ValidHeader(h) && FromCode(h.command) == c
            && h.keyLen == |key| && h.valueLen == |value|
            && b[HEADER_SIZE..HEADER_SIZE + h.keyLen] == key
            && b[HEADER_SIZE + h.keyLen..HEADER_SIZE + h.keyLen + h.valueLen] == value
  {
    hide HeaderBytes, DecodeHeader;
    var b := Frame(c, key, value) + rest;
    assert b == HeaderBytes(Code(c), |key|, |value|) + (key + value + rest);
    HeaderRoundTrip(Code(c), |key|, |value|, key + value + rest);
  }

  lemma HeaderRoundTripBack(b: Bytes)
    requires |b| >= HEADER_SIZE
    requires DecodeHeader(b).magic == MAGIC && DecodeHeader(b).version == VERSION
    ensures var h := DecodeHeader(b); b[..HEADER_SIZE] == HeaderBytes(h.command, h.keyLen, h.valueLen)
  {
    var h := DecodeHeader(b);
    U32RoundTripBack(b[4..8]);
    U32RoundTripBack(b[8..12]);
    hide GetU32, PutU32;
    assert b[0] == MAGIC / 256 && b[1] == MAGIC % 256;
    assert b[..12] == b[..4] + b[4..8] + b[8..12];
  }

  /** A validated header whose lengths account for all the bytes admits exactly one frame. */
  lemma FrameUnique(b: Bytes)
    requires |b| >= HEADER_SIZE
    requires ValidHeader(DecodeHeader(b))
    requires |b| == HEADER_SIZE + DecodeHeader(b).keyLen + DecodeHeader(b).valueLen
    ensures var h := DecodeHeader(b);
            && Encodable(FromCode(h.command), b[HEADER_SIZE..HEADER_SIZE + h.keyLen], b[HEADER_SIZE + h.keyLen..])
            && b == Frame(FromCode(h.command), b[HEADER_SIZE..HEADER_SIZE + h.keyLen], b[HEADER_SIZE + h.keyLen..])
  {
    hide HeaderBytes, DecodeHeader;
    var h := DecodeHeader(b);
    HeaderRoundTripBack(b);
    var key, value := b[HEADER_SIZE..HEADER_SIZE + h.keyLen], b[HEADER_SIZE + h.keyLen..];
    assert b == b[..HEADER_SIZE] + key + value;
  }

  lemma DecodeHeaderLocal(b: Bytes, rest: Bytes)
    requires |b| >= HEADER_SIZE
    ensures DecodeHeader(b + rest) == DecodeHeader(b)
  {
    assert (b + rest)[4..8] == b[4..8];
    assert (b + rest)[8..12] == b[8..12];
  }
}
