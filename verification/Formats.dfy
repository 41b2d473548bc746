/**
 The formats on the wire and in the log, byte by byte: what a program in another language would have to
 read and write to take part.
 */
module Formats {
  import opened Common
  import opened KvProtocol
  import opened CacheValueCodec
  import opened RpcProtocol
  import opened Framing
  import C = Crc32
  import Log = AofCodec

  function Word(a: Byte, b: Byte, c: Byte, d: Byte): nat { a * 0x100_0000 + b * 0x1_0000 + c * 0x100 + d }

  /** Four bytes at `at` hold `n` in network order. */
  predicate HoldsWord(b: Bytes, at: nat, n: nat)
  {
    at + 4 <= |b| && n == Word(b[at], b[at + 1], b[at + 2], b[at + 3])
  }

  lemma WordIs(b: Bytes, at: nat, n: nat)
    requires n < U32_LIMIT && at + 4 <= |b| && b[at..at + 4] == PutU32(n)
    ensures HoldsWord(b, at, n)
  {
    U32RoundTrip(n);
    var w := PutU32(n);
    assert w[0] == b[at] && w[1] == b[at + 1] && w[2] == b[at + 2] && w[3] == b[at + 3];
    hide PutU32;
  }

  // ----- The KV frame -----

  function Number(c: Command): nat
  {
    match c
    case Unknown => 0
    case Set => 1
    case Get => 2
    case Del => 3
    case Stats => 4
    case Lookup => 5
    case SetTtl => 6
  }

  /** Byte by byte: 0xCAFE, version 1, command, key length, value length, key, value. */
  lemma FrameLayout(c: Command, key: Bytes, value: Bytes)
    ensures KvProtocol.Encode(c, key, value).Some? <==> c != Unknown && |key| <= 65536 && |value| <= 1048640
    ensures KvProtocol.Encode(c, key, value).Some? ==>
              var b := KvProtocol.Encode(c, key, value).value;
              && |b| == 12 + |key| + |value|
              && b[0] == 0xCA && b[1] == 0xFE && b[2] == 1 && b[3] == Number(c)
              && HoldsWord(b, 4, |key|) && HoldsWord(b, 8, |value|)
              && b[12..12 + |key|] == key && b[12 + |key|..] == value
  {
    if Encodable(c, key, value) {
      var b := Frame(c, key, value);
      assert b[4..8] == PutU32(|key|) && b[8..12] == PutU32(|value|);
      WordIs(b, 4, |key|);
      WordIs(b, 8, |value|);
      hide HeaderBytes, PutU32, DecodeHeader;
    }
  }

  /** The headers a reader accepts. */
  lemma HeaderAccepted(b: Bytes)
    requires |b| >= 12
    ensures var h := DecodeHeader(b);
            && HoldsWord(b, 4, h.keyLen) && HoldsWord(b, 8, h.valueLen) && h.command == b[3]
            && (ValidHeader(h) <==> b[0] == 0xCA && b[1] == 0xFE && b[2] == 1 && 1 <= b[3] <= 6
                                    && h.keyLen <= 65536 && h.valueLen <= 1048640)
  {
    assert b[4..8] == [b[4], b[5], b[6], b[7]] && b[8..12] == [b[8], b[9], b[10], b[11]];
  }

  // ----- The log record -----

  /** `AOF2`, the payload length, the payload checksum and the payload, which is a KV frame. */
  lemma RecordLayout(m: Log.Mutation)
    ensures Log.Encode(m).Some? <==>
              && (m.command == Set || m.command == SetTtl || (m.command == Del && m.value == []))
              && |m.key| <= 65536 && |m.value| <= 1048640
    ensures Log.Encode(m).Some? ==>
              var b, frame := Log.Encode(m).value, KvProtocol.Encode(m.command, m.key, m.value);
              && frame.Some? && |b| == 12 + |frame.value| && b[12..] == frame.value
              && b[0] == 0x41 && b[1] == 0x4f && b[2] == 0x46 && b[3] == 0x32
              && HoldsWord(b, 4, |frame.value|) && HoldsWord(b, 8, C.CrcCode(frame.value))
  {
    hide C.CrcCode, Frame, HoldsWord, Log.Sealed, Reads;
    if Log.Loggable(m) { SealedLayout(Log.Payload(m), C.CrcCode(Log.Payload(m))); }
  }

  lemma SealedLayout(payload: Bytes, crc: nat)
    requires |payload| < U32_LIMIT && crc < U32_LIMIT
    ensures var b := Log.Sealed(payload, crc);
            && b[0] == 0x41 && b[1] == 0x4f && b[2] == 0x46 && b[3] == 0x32 && b[12..] == payload
            && HoldsWord(b, 4, |payload|) && HoldsWord(b, 8, crc)
  {
    hide PutU32, HoldsWord;
    var b := Log.Sealed(payload, crc);
    assert b[4..8] == PutU32(|payload|) && b[8..12] == PutU32(crc);
    WordIs(b, 4, |payload|);
    WordIs(b, 8, crc);
  }

  lemma {:induction false} ShiftsNext(c: bv32, n: nat)
    requires n > 0
    ensures C.Shifts(c, n) == C.Shifts(C.Shift(c), n - 1)
  {}

  lemma LetterShifts()
    ensures C.Shifts(0xffffff9e, 8) == 0x174841bc
  {
    LetterSteps();
    hide C.Shift, C.Shifts;
    ShiftsNext(0xffffff9e, 8);
    ShiftsNext(0x7fffffcf, 7);
    ShiftsNext(0xd2477cc7, 6);
    ShiftsNext(0x849b3d43, 5);
    ShiftsNext(0xaff51d81, 4);
    ShiftsNext(0xba420de0, 3);
    ShiftsNext(0x5d2106f0, 2);
    ShiftsNext(0x2e908378, 1);
    assert C.Shifts(0x174841bc, 0) == 0x174841bc by { ShiftsNone(0x174841bc); }
  }

  lemma ShiftsNone(c: bv32)
    ensures C.Shifts(c, 0) == c
  {}

  lemma LetterSteps()
    ensures C.Shift(0xffffff9e) == 0x7fffffcf
    ensures C.Shift(0x7fffffcf) == 0xd2477cc7
    ensures C.Shift(0xd2477cc7) == 0x849b3d43
    ensures C.Shift(0x849b3d43) == 0xaff51d81
    ensures C.Shift(0xaff51d81) == 0xba420de0
    ensures C.Shift(0xba420de0) == 0x5d2106f0
    ensures C.Shift(0x5d2106f0) == 0x2e908378
    ensures C.Shift(0x2e908378) == 0x174841bc
  {}

  lemma LetterWidened()
    ensures C.Widen(0x61) == 0x61
  {
    assert C.Odd(0x61) && !C.Odd(0x30) && !C.Odd(0x18) && !C.Odd(0xc) && !C.Odd(6) && C.Odd(3) && C.Odd(1) && !C.Odd(0);
    LetterHalves();
    hide C.Odd, C.Down;
  }

  lemma LetterHalves()
    ensures C.Down(0x61, 1) == 0x30 && C.Down(0x61, 2) == 0x18 && C.Down(0x61, 3) == 0xc && C.Down(0x61, 4) == 6
    ensures C.Down(0x61, 5) == 3 && C.Down(0x61, 6) == 1 && C.Down(0x61, 7) == 0
  {
    assert C.Down(0x61, 0) == 0x61;
  }

  lemma OneByte(c: bv32, b: Byte)
    ensures C.ByteSteps(c, [b]) == C.ByteStep(c, b) && C.ByteSteps(c, []) == c
  {
    hide C.ByteStep;
    assert [b][1..] == [];
    assert C.ByteSteps(c, [b]) == C.ByteSteps(C.ByteStep(c, b), []);
  }

  lemma Registers()
    ensures C.Xor(C.INIT, 0x61) == 0xffffff9e && C.Invert(0x174841bc) == 0xe8b7be43 && C.Invert(C.INIT) == 0
  {}

  /** The checksum of the letter a is 0xE8B7BE43, and that of nothing is 0. */
  lemma CheckValue()
    ensures C.Crc([0x61]) == 0xe8b7be43 && C.Crc([]) == 0
  {
    hide C.ByteSteps, C.Shifts, C.Widen, C.Xor, C.Invert;
    LetterShifts();
    LetterWidened();
    Registers();
    OneByte(C.INIT, 0x61);
  }

  // ----- The RPC frame -----

  /** `KVR2`, the payload length, the identifier in eight bytes, the payload. */
  lemma RpcLayout(id: nat, payload: Bytes)
    requires id < U64_LIMIT && |payload| < U32_LIMIT
    ensures var b := RpcFrame(id, payload);
            && |b| == 16 + |payload| && b[16..] == payload
            && b[0] == 0x4b && b[1] == 0x56 && b[2] == 0x52 && b[3] == 0x32 && HoldsWord(b, 4, |payload|)
            && id == 0x1_0000_0000 * Word(b[8], b[9], b[10], b[11]) + Word(b[12], b[13], b[14], b[15])
  {
    hide PutU32, PutWord, GetWord, HoldsWord, Pow256, Word;
    var b := RpcFrame(id, payload);
    assert b[4..8] == PutU32(|payload|);
    WordIs(b, 4, |payload|);
    assert b[8..16] == PutWord(id, 8);
    EightBytes();
    WordRoundTrip(id, 8);
    EightDigits(b[8..16]);
  }

  /** A big-endian word of eight bytes. */
  lemma EightDigits(w: Bytes)
    requires |w| == 8
    ensures GetWord(w) == 0x1_0000_0000 * Word(w[0], w[1], w[2], w[3]) + Word(w[4], w[5], w[6], w[7])
  {
    forall k | 0 <= k < 8 ensures GetWord(w[..k + 1]) == GetWord(w[..k]) * 256 + w[k] as int {
      assert w[..k + 1][..k] == w[..k];
    }
    assert w[..0] == [] && GetWord(w[..0]) == 0 && w[..8] == w;
    hide GetWord;
    assert GetWord(w[..0 + 1]) == GetWord(w[..0]) * 256 + w[0];
    assert GetWord(w[..1 + 1]) == GetWord(w[..1]) * 256 + w[1];
    assert GetWord(w[..2 + 1]) == GetWord(w[..2]) * 256 + w[2];
    assert GetWord(w[..3 + 1]) == GetWord(w[..3]) * 256 + w[3];
    assert GetWord(w[..4 + 1]) == GetWord(w[..4]) * 256 + w[4];
    assert GetWord(w[..5 + 1]) == GetWord(w[..5]) * 256 + w[5];
    assert GetWord(w[..6 + 1]) == GetWord(w[..6]) * 256 + w[6];
    assert GetWord(w[..7 + 1]) == GetWord(w[..7]) * 256 + w[7];
  }

  // ----- The cache value message -----

  /** The number in a run of seven-bit digits, least significant first. */
  function Digits(b: Bytes): nat
  {
    if b == [] then 0 else b[0] % 128 + 128 * Digits(b[1..])
  }

  /** A varint: seven bits a byte, least significant first, the high bit on all bytes but the last. */
  lemma {:induction false} VarintLayout(n: nat)
    ensures var b := PutVarint(n);
            && Digits(b) == n && b[|b| - 1] < 128 && (|b| > 1 ==> b[|b| - 1] > 0)
            && forall i :: 0 <= i < |b| - 1 ==> b[i] >= 128
  {
    var b := PutVarint(n);
    if n >= 128 {
      VarintLayout(n / 128);
      var rest := PutVarint(n / 128);
      assert b == [128 + n % 128] + rest && b[1..] == rest;
      hide PutVarint;
      assert forall i :: 0 < i < |b| ==> b[i] == rest[i - 1];
    }
  }

  lemma OneIs()
    ensures PutVarint(1) == [1]
  {}

  /** Field numbers and wire types: found is 1, value 2 (length-delimited), expiry 3, lifetime 4. */
  lemma ValueLayout(found: bool, value: Bytes, expires: nat, ttl: nat)
    ensures Serialize(CacheValue(found, value, expires, ttl))
         == (if found then [1 * 8 + 0, 1] else [])
            + (if value == [] then [] else [2 * 8 + 2] + PutVarint(|value|) + value)
            + (if expires == 0 then [] else [3 * 8 + 0] + PutVarint(expires))
            + (if ttl == 0 then [] else [4 * 8 + 0] + PutVarint(ttl))
  {
    OneIs();
    hide PutVarint;
    var c := CacheValue(found, value, expires, ttl);
    assert NumberField(FOUND_TAG, if c.found then 1 else 0) == if found then [1 * 8 + 0, 1] else [];
    assert ValueField(c.value) == if value == [] then [] else [2 * 8 + 2] + PutVarint(|value|) + value;
    assert NumberField(EXPIRES_TAG, c.expires) == if expires == 0 then [] else [3 * 8 + 0] + PutVarint(expires);
    assert NumberField(TTL_TAG, c.ttl) == if ttl == 0 then [] else [4 * 8 + 0] + PutVarint(ttl);
    hide NumberField, ValueField;
  }

  // ----- Frame boundaries -----

  /** How long a frame is, from its header. */
  lemma SizeLayout(b: Bytes)
    ensures SizeOf(Kv, b) == Size(0) <==> |b| < 12
    ensures SizeOf(Rpc, b) == Size(0) <==> |b| < 16
    ensures |b| >= 12 && SizeOf(Kv, b).Size? ==>
              SizeOf(Kv, b).n == 12 + Word(b[4], b[5], b[6], b[7]) + Word(b[8], b[9], b[10], b[11])
    ensures |b| >= 12 ==> (SizeOf(Kv, b).Size? <==> ValidHeader(DecodeHeader(b)))
    ensures |b| >= 16 ==> (SizeOf(Rpc, b).Size? <==> b[0] == 0x4b && b[1] == 0x56 && b[2] == 0x52 && b[3] == 0x32)
    ensures |b| >= 16 && SizeOf(Rpc, b).Size? ==> SizeOf(Rpc, b).n == 16 + Word(b[4], b[5], b[6], b[7])
  {
    if |b| >= 12 {
      assert b[4..8] == [b[4], b[5], b[6], b[7]] && b[8..12] == [b[8], b[9], b[10], b[11]];
      assert b[..4] == [b[0], b[1], b[2], b[3]];
    }
  }
}
