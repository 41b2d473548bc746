/**
 The append-only log as bytes. A version-2 record is `AOF2`, the payload length, the payload
 checksum and the payload, a KV frame; a legacy record is the bare frame.
 */
module AofCodec {
  import opened Common
  import opened KvProtocol
  import opened Crc32

  datatype Mutation = Mutation(command: Command, key: Bytes, value: Bytes)

  const TAG: Bytes := [0x41, 0x4f, 0x46, 0x32]  // "AOF2"
  const RECORD_HEADER: nat := 12

  /** What `Encode` accepts; any other mutation raises. */
  predicate Loggable(m: Mutation)
  {
    && (m.command == Set || m.command == SetTtl || (m.command == Del && m.value == []))
    && Encodable(m.command, m.key, m.value)
  }

  function Payload(m: Mutation): (b: Bytes)
    requires Loggable(m)
    ensures |b| == HEADER_SIZE + |m.key| + |m.value| <= MAX_FRAME_SIZE
  {
    Frame(m.command, m.key, m.value)
  }

  function Sealed(payload: Bytes, crc: nat): (b: Bytes)
    requires |payload| < U32_LIMIT && crc < U32_LIMIT
    ensures |b| == RECORD_HEADER + |payload|
  {
    TAG + PutU32(|payload|) + PutU32(crc) + payload
  }

  /** `Encode`: a checksummed record, or `None` where it raises. */
  function Encode(m: Mutation): (r: Option<Bytes>)
    ensures r.Some? <==> Loggable(m)
    ensures r.Some? ==> |r.value| == RECORD_HEADER + HEADER_SIZE + |m.key| + |m.value|
  {
    if Loggable(m) then Some(Sealed(Payload(m), CrcCode(Payload(m)))) else None
  }

  datatype Record = V2(m: Mutation) | Legacy(m: Mutation)

  function RecordBytes(r: Record): (b: Bytes)
    requires Loggable(r.m)
    ensures |b| == RecordSize(r)
  {
    if r.V2? then Encode(r.m).value else Payload(r.m)
  }

  function RecordSize(r: Record): nat
  {
    HEADER_SIZE + |r.m.key| + |r.m.value| + (if r.V2? then RECORD_HEADER else 0)
  }

  predicate AllLoggable(rs: seq<Record>) { forall r :: r in rs ==> Loggable(r.m) }

  function LogBytes(rs: seq<Record>): (b: Bytes)
    requires AllLoggable(rs)
  {
    if rs == [] then [] else RecordBytes(rs[0]) + LogBytes(rs[1..])
  }

  function LogSize(rs: seq<Record>): nat
  {
    if rs == [] then 0 else RecordSize(rs[0]) + LogSize(rs[1..])
  }

  function V2All(ms: seq<Mutation>): (rs: seq<Record>)
    ensures |rs| == |ms| && forall i :: 0 <= i < |rs| ==> rs[i] == V2(ms[i])
  {
    seq(|ms|, i requires 0 <= i < |ms| => V2(ms[i]))
  }

  // ----- Reading -----

  /** The checks on a payload before it is handed to the callback. */
  function Operation(payload: Bytes): (r: Option<Mutation>)
    requires |payload| >= HEADER_SIZE
  {
    var h := DecodeHeader(payload);
    if !ValidHeader(h) || HEADER_SIZE + h.keyLen + h.valueLen != |payload|
       || (h.command != Code(Set) && h.command != Code(Del) && h.command != Code(SetTtl))
       || (h.command == Code(Del) && h.valueLen != 0)
    then None
    else Some(Mutation(FromCode(h.command), payload[HEADER_SIZE..HEADER_SIZE + h.keyLen],
                       payload[HEADER_SIZE + h.keyLen..]))
  }

  datatype ReadResult = Bad | Next(record: Record, size: nat)

  function ReadV2(b: Bytes): (r: ReadResult)
    requires |b| >= RECORD_HEADER
    ensures r.Next? ==> RECORD_HEADER + HEADER_SIZE <= r.size <= |b|
  {
    var length, crc := GetU32(b[4..8]), GetU32(b[8..12]);
    if length < HEADER_SIZE || length > MAX_FRAME_SIZE || length > |b| - RECORD_HEADER then Bad
    else
      var payload := b[RECORD_HEADER..RECORD_HEADER + length];
      if CrcCode(payload) != crc then Bad
      else
        match Operation(payload)
        case None => Bad
        case Some(m) => Next(V2(m), RECORD_HEADER + length)
  }

  function ReadLegacy(b: Bytes): (r: ReadResult)
    requires |b| >= HEADER_SIZE
    ensures r.Next? ==> HEADER_SIZE <= r.size <= |b|
  {
    var h := DecodeHeader(b);
    if !ValidHeader(h) || h.keyLen + h.valueLen > |b| - HEADER_SIZE then Bad
    else
      match Operation(b[..HEADER_SIZE + h.keyLen + h.valueLen])
      case None => Bad
      case Some(m) => Next(Legacy(m), HEADER_SIZE + h.keyLen + h.valueLen)
  }

  /** One turn of the replay loop over the remaining bytes. */
  function ReadRecord(b: Bytes): (r: ReadResult)
    ensures r.Next? ==> 0 < r.size <= |b|
  {
    if |b| < HEADER_SIZE then Bad
    else if b[..4] == TAG then ReadV2(b)
    else ReadLegacy(b)
  }

  datatype ScanResult = ScanResult(records: seq<Record>, ok: bool)

  /** The records delivered before the end of the log or the first error. */
  function Scan(b: Bytes): (r: ScanResult)
    decreases |b|
  {
    if b == [] then ScanResult([], true)
    else
      match ReadRecord(b)
      case Bad => ScanResult([], false)
      case Next(record, size) =>
        var tail := Scan(b[size..]);
        ScanResult([record] + tail.records, tail.ok)
  }

  /** The replay loop: `remaining` counts down, each good record goes to the callback at once. */
  method Replay(file: Bytes) returns (delivered: seq<Record>, ok: bool)
    ensures ScanResult(delivered, ok) == Scan(file)
  {
    hide ReadRecord;
    delivered, ok := [], true;
    var remaining := |file|;
    assert file[0..] == file;
    while remaining > 0
      invariant 0 <= remaining <= |file|
      invariant var tail := Scan(file[|file| - remaining..]);
                Scan(file) == ScanResult(delivered + tail.records, tail.ok)
    {
      var rest := file[|file| - remaining..];
      var step := ReadRecord(rest);
      if step.Bad? {
        return delivered, false;
      }
      assert rest[step.size..] == file[|file| - (remaining - step.size)..];
      ghost var tail := Scan(rest[step.size..]);
      assert delivered + ([step.record] + tail.records) == (delivered + [step.record]) + tail.records;
      delivered := delivered + [step.record];
      remaining := remaining - step.size;
    }
  }

  // ----- One record -----

  lemma OperationRoundTrip(m: Mutation)
    requires Loggable(m)
    ensures Operation(Payload(m)) == Some(m)
  {
    hide DecodeHeader, ValidHeader, Frame;
    FrameRoundTrip(m.command, m.key, m.value, []);
    assert Payload(m) + [] == Payload(m);
    CodesDiffer(m.command);
  }

  lemma CodesDiffer(c: Command)
    requires c == Set || c == SetTtl || c == Del
    ensures FromCode(Code(c)) == c && (Code(c) == Code(Del) <==> c == Del)
    ensures forall b: Byte :: b <= 6 && FromCode(b) == c ==> b == Code(c)
  {}

  lemma OperationUnique(payload: Bytes)
    requires |payload| >= HEADER_SIZE && Operation(payload).Some?
    ensures var m := Operation(payload).value; Loggable(m) && payload == Payload(m)
  {
    FrameUnique(payload);
    hide DecodeHeader, Frame;
  }

  lemma SealedParts(payload: Bytes, crc: nat, rest: Bytes)
    requires |payload| < U32_LIMIT && crc < U32_LIMIT
    ensures var b := Sealed(payload, crc) + rest;
            && b[..4] == TAG && GetU32(b[4..8]) == |payload| && GetU32(b[8..12]) == crc
            && b[RECORD_HEADER..RECORD_HEADER + |payload|] == payload
  {
    var b := Sealed(payload, crc) + rest;
    assert b[4..8] == PutU32(|payload|) && b[8..12] == PutU32(crc);
    U32RoundTrip(|payload|);
    U32RoundTrip(crc);
    hide PutU32, GetU32;
  }

  lemma ReadOwnV2(m: Mutation, rest: Bytes)
    requires Loggable(m)
    ensures ReadRecord(RecordBytes(V2(m)) + rest) == Next(V2(m), RecordSize(V2(m)))
  {
    hide CrcCode, Operation, Sealed, GetU32;
    SealedParts(Payload(m), CrcCode(Payload(m)), rest);
    OperationRoundTrip(m);
    hide Payload, Loggable;
  }

  lemma FrameNotTagged(m: Mutation, rest: Bytes)
    requires Loggable(m)
    ensures (Payload(m) + rest)[..4] != TAG
  {
    assert (Payload(m) + rest)[0] == MAGIC / 256;
    assert TAG[0] == 0x41;
  }

  lemma ReadOwnLegacy(m: Mutation, rest: Bytes)
    requires Loggable(m)
    ensures ReadRecord(RecordBytes(Legacy(m)) + rest) == Next(Legacy(m), RecordSize(Legacy(m)))
  {
    hide DecodeHeader, Operation, ValidHeader, Frame;
    var b := Payload(m) + rest;
    FrameNotTagged(m, rest);
    FrameRoundTrip(m.command, m.key, m.value, rest);
    assert b[..|Payload(m)|] == Payload(m);
    OperationRoundTrip(m);
  }

  lemma ReadOwn(r: Record, rest: Bytes)
    requires Loggable(r.m)
    ensures ReadRecord(RecordBytes(r) + rest) == Next(r, RecordSize(r))
  {
    hide *;
    if r.V2? { ReadOwnV2(r.m, rest); } else { ReadOwnLegacy(r.m, rest); }
  }

  /** A record cut short anywhere is an error. */
  lemma ReadCut(r: Record, n: nat)
    requires Loggable(r.m) && n < RecordSize(r)
    ensures ReadRecord(RecordBytes(r)[..n]) == Bad
  {
    hide CrcCode, Operation, DecodeHeader, GetU32, Sealed, ValidHeader, Frame;
    var b := RecordBytes(r)[..n];
    assert RecordBytes(r) == b + RecordBytes(r)[n..];
    if n >= HEADER_SIZE {
      assert b[..4] == RecordBytes(r)[..4] && b[4..8] == RecordBytes(r)[4..8];
      assert RecordBytes(r) + [] == RecordBytes(r);
      if r.V2? {
        SealedParts(Payload(r.m), CrcCode(Payload(r.m)), []);
      } else {
        FrameNotTagged(r.m, []);
        FrameRoundTrip(r.m.command, r.m.key, r.m.value, []);
        DecodeHeaderLocal(b, RecordBytes(r)[n..]);
      }
    }
  }

  /** The reader accepts nothing but the writer's own bytes. */
  lemma ReadOnlyOwn(b: Bytes)
    requires ReadRecord(b).Next?
    ensures var s := ReadRecord(b);
            Loggable(s.record.m) && s.size == RecordSize(s.record) && b[..s.size] == RecordBytes(s.record)
  {
    hide CrcCode, Operation, DecodeHeader, GetU32, PutU32, ValidHeader, Frame, Loggable;
    var s := ReadRecord(b);
    if b[..4] == TAG {
      var payload := b[RECORD_HEADER..s.size];
      OperationUnique(payload);
      U32RoundTripBack(b[4..8]);
      U32RoundTripBack(b[8..12]);
      assert b[..s.size] == b[..4] + b[4..8] + b[8..12] + payload;
    } else {
      OperationUnique(b[..s.size]);
    }
  }

  // ----- Whole logs -----

  lemma {:induction false} LogBytesSize(rs: seq<Record>)
    requires AllLoggable(rs)
    ensures |LogBytes(rs)| == LogSize(rs)
  {
    hide RecordBytes, RecordSize, Loggable;
    if rs != [] { LogBytesSize(rs[1..]); }
  }

  lemma {:induction false} LogBytesAppend(a: seq<Record>, b: seq<Record>)
    requires AllLoggable(a) && AllLoggable(b)
    ensures AllLoggable(a + b) && LogBytes(a + b) == LogBytes(a) + LogBytes(b)
    ensures LogSize(a + b) == LogSize(a) + LogSize(b)
  {
    hide RecordBytes, RecordSize, Loggable;
    if a == [] {
      assert a + b == b;
    } else {
      assert (a + b)[1..] == a[1..] + b;
      LogBytesAppend(a[1..], b);
    }
  }

  /** Records already read do not depend on what follows them. */
  lemma {:induction false} ScanSplit(rs: seq<Record>, rest: Bytes)
    requires AllLoggable(rs)
    ensures Scan(LogBytes(rs) + rest) == ScanResult(rs + Scan(rest).records, Scan(rest).ok)
  {
    hide RecordBytes, RecordSize, ReadRecord, Loggable;
    if rs == [] {
      assert LogBytes(rs) + rest == rest;
    } else {
      var first, others := RecordBytes(rs[0]), LogBytes(rs[1..]);
      var b := LogBytes(rs) + rest;
      assert b == first + (others + rest);
      ReadOwn(rs[0], others + rest);
      assert b[|first|..] == others + rest;
      ScanSplit(rs[1..], rest);
      assert rs == [rs[0]] + rs[1..];
    }
  }

  /** Replaying any mix of version-2 and legacy records yields exactly those records, in order. */
  lemma ScanRoundTrip(rs: seq<Record>)
    requires AllLoggable(rs)
    ensures Scan(LogBytes(rs)) == ScanResult(rs, true)
  {
    ScanSplit(rs, []);
    assert LogBytes(rs) + [] == LogBytes(rs);
  }

  /** An accepted log is the encoding of the records it delivers. */
  lemma {:induction false} ScanOnlyLogs(b: Bytes)
    requires Scan(b).ok
    ensures AllLoggable(Scan(b).records) && b == LogBytes(Scan(b).records)
    decreases |b|
  {
    hide ReadRecord, RecordBytes, RecordSize, Loggable;
    if b != [] {
      var s := ReadRecord(b);
      ReadOnlyOwn(b);
      ScanOnlyLogs(b[s.size..]);
      assert Scan(b).records[1..] == Scan(b[s.size..]).records;
      assert b == b[..s.size] + b[s.size..];
    }
  }

  /** Every delivered record is one the writer could have written. */
  lemma {:induction false} ScanLoggable(b: Bytes)
    ensures AllLoggable(Scan(b).records)
    decreases |b|
  {
    hide ReadRecord, RecordBytes, RecordSize, Loggable;
    if b != [] && ReadRecord(b).Next? {
      ReadOnlyOwn(b);
      ScanLoggable(b[ReadRecord(b).size..]);
    }
  }

  /** How many whole records fit in the first `n` bytes. */
  function Complete(rs: seq<Record>, n: nat): (k: nat)
    ensures k <= |rs|
  {
    if rs == [] || n < RecordSize(rs[0]) then 0
    else 1 + Complete(rs[1..], n - RecordSize(rs[0]))
  }

  /** `Complete` is the greatest such count. */
  lemma {:induction false} CompleteIsGreatest(rs: seq<Record>, n: nat)
    ensures var k := Complete(rs, n);
            LogSize(rs[..k]) <= n && (k < |rs| ==> n < LogSize(rs[..k + 1]))
  {
    hide RecordSize;
    var k := Complete(rs, n);
    if rs == [] || n < RecordSize(rs[0]) {
      if rs != [] { assert rs[..1][1..] == []; }
    } else {
      CompleteIsGreatest(rs[1..], n - RecordSize(rs[0]));
      assert rs[..k][1..] == rs[1..][..k - 1];
      if k < |rs| { assert rs[..k + 1][1..] == rs[1..][..k]; }
    }
  }

  /**
   Replaying a byte prefix delivers exactly the records complete in it, and succeeds if and only
   if the cut falls on a record boundary.
   */
  lemma {:induction false} ScanPrefix(rs: seq<Record>, n: nat)
    requires AllLoggable(rs) && n <= LogSize(rs)
    ensures |LogBytes(rs)| == LogSize(rs)
    ensures var k := Complete(rs, n);
            Scan(LogBytes(rs)[..n]) == ScanResult(rs[..k], LogSize(rs[..k]) == n)
  {
    hide RecordBytes, RecordSize, ReadRecord, Loggable;
    LogBytesSize(rs);
    var b := LogBytes(rs)[..n];
    if n == 0 {
      assert b == [];
      RecordSizePositive(rs);
    } else if n < RecordSize(rs[0]) {
      assert b == RecordBytes(rs[0])[..n];
      ReadCut(rs[0], n);
    } else {
      var first, m := RecordBytes(rs[0]), n - RecordSize(rs[0]);
      var k := Complete(rs, n);
      LogBytesSize(rs[1..]);
      assert b == first + LogBytes(rs[1..])[..m];
      ReadOwn(rs[0], LogBytes(rs[1..])[..m]);
      assert b[|first|..] == LogBytes(rs[1..])[..m];
      ScanPrefix(rs[1..], m);
      assert rs[..k] == [rs[0]] + rs[1..][..k - 1];
      assert rs[..k][1..] == rs[1..][..k - 1];
    }
  }

  lemma RecordSizePositive(rs: seq<Record>)
    ensures Complete(rs, 0) == 0
  {}

  /** A prefix that is accepted holds a prefix of the records. */
  lemma AcceptedPrefix(rs: seq<Record>, n: nat)
    requires AllLoggable(rs) && n <= LogSize(rs)
    requires |LogBytes(rs)| == LogSize(rs) && Scan(LogBytes(rs)[..n]).ok
    ensures Scan(LogBytes(rs)[..n]).records == rs[..Complete(rs, n)]
    ensures LogSize(rs[..Complete(rs, n)]) == n
  {
    hide *;
    ScanPrefix(rs, n);
  }

  // ----- Corruption -----

  lemma SealedMismatch(good: Bytes, bad: Bytes, rest: Bytes)
    requires HEADER_SIZE <= |good| == |bad| < U32_LIMIT && CrcCode(good) != CrcCode(bad)
    ensures ReadRecord(Sealed(bad, CrcCode(good)) + rest) == Bad
  {
    hide CrcCode, Operation, Sealed, GetU32;
    SealedParts(bad, CrcCode(good), rest);
  }

  /**
   Overwriting up to four consecutive payload bytes of a version-2 record, anywhere in a log,
   makes replay stop with an error right before that record.
   */
  lemma CorruptionRejected(before: seq<Record>, m: Mutation, rest: Bytes, p: Bytes, a: Bytes, b: Bytes, s: Bytes)
    requires AllLoggable(before) && Loggable(m)
    requires Payload(m) == p + a + s && |a| == |b| <= 4 && a != b
    ensures Scan(LogBytes(before) + (Sealed(p + b + s, CrcCode(Payload(m))) + rest)) == ScanResult(before, false)
  {
    hide RecordBytes, ReadRecord, CrcCode, Sealed, Loggable;
    var broken := Sealed(p + b + s, CrcCode(p + a + s)) + rest;
    BurstChangesCode(p, a, b, s);
    SealedMismatch(p + a + s, p + b + s, rest);
    ScanSplit(before, broken);
    assert before + [] == before;
  }
}
