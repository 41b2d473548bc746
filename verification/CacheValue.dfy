/**
 The `CacheValue` message of the wire schema, with its four known fields: proto3 varints and
 length-delimited bytes, default values omitted when writing, any order and repetition accepted
 when reading (the last occurrence wins).
 */
module CacheValueCodec {
  import opened Common

  datatype CacheValue = CacheValue(found: bool, value: Bytes, expires: nat, ttl: nat)

  const EMPTY := CacheValue(false, [], 0, 0)

  predicate WellFormed(c: CacheValue)
  {
    c.expires < U64_LIMIT && c.ttl < U64_LIMIT && |c.value| < U64_LIMIT
  }

  // ----- Varints -----

  function PutVarint(n: nat): (b: Bytes)
    ensures |b| > 0
  {
    if n < 128 then [n] else [128 + n % 128] + PutVarint(n / 128)
  }

  datatype Varint = Varint(value: nat, size: nat)

  /** At most `k` bytes; the value is not yet reduced to 64 bits. */
  function ReadVarint(b: Bytes, k: nat): (r: Option<Varint>)
    ensures r.Some? ==> 0 < r.value.size <= |b| && r.value.size <= k
  {
    if k == 0 || b == [] then None
    else if b[0] < 128 then Some(Varint(b[0], 1))
    else
      match ReadVarint(b[1..], k - 1)
      case None => None
      case Some(v) => Some(Varint(b[0] as int - 128 + 128 * v.value, v.size + 1))
  }

  function Pow128(k: nat): (p: nat)
    ensures p >= 1
  {
    if k == 0 then 1 else 128 * Pow128(k - 1)
  }

  lemma {:induction false} VarintRoundTrip(n: nat, k: nat, rest: Bytes)
    requires k > 0 && n < Pow128(k)
    ensures ReadVarint(PutVarint(n) + rest, k) == Some(Varint(n, |PutVarint(n)|))
    decreases k
  {
    var b := PutVarint(n) + rest;
    if n < 128 {
      assert b[0] == n;
    } else {
      assert n / 128 < Pow128(k - 1);
      assert b[1..] == PutVarint(n / 128) + rest;
      VarintRoundTrip(n / 128, k - 1, rest);
    }
  }

  lemma U64InTenBytes()
    ensures U64_LIMIT < Pow128(10)
  {
    assert Pow128(1) == 128;
    assert Pow128(2) == 128 * 128;
    assert Pow128(4) == 0x1000_0000;
    assert Pow128(6) == 0x400_0000_0000;
    assert Pow128(8) == 0x100_0000_0000_0000;
  }

  lemma Varint64RoundTrip(n: nat, rest: Bytes)
    requires n < U64_LIMIT
    ensures ReadVarint(PutVarint(n) + rest, 10) == Some(Varint(n, |PutVarint(n)|))
  {
    hide PutVarint, ReadVarint, Pow128;
    U64InTenBytes();
    VarintRoundTrip(n, 10, rest);
  }

  lemma {:induction false} PutVarintMonotone(a: nat, b: nat)
    requires a <= b
    ensures |PutVarint(a)| <= |PutVarint(b)|
    decreases b
  {
    if a >= 128 { PutVarintMonotone(a / 128, b / 128); }
  }

  /** No encoding of a number is shorter than the canonical one. */
  lemma {:induction false} VarintMinimal(b: Bytes, k: nat)
    requires ReadVarint(b, k).Some?
    ensures |PutVarint(ReadVarint(b, k).value.value)| <= ReadVarint(b, k).value.size
    decreases k
  {
    var v := ReadVarint(b, k).value;
    if b[0] >= 128 {
      VarintMinimal(b[1..], k - 1);
      if v.value >= 128 {
        assert v.value / 128 == ReadVarint(b[1..], k - 1).value.value;
      }
    }
  }

  // ----- Fields -----

  const FOUND_TAG: Byte := 8
  const VALUE_TAG: Byte := 18
  const EXPIRES_TAG: Byte := 24
  const TTL_TAG: Byte := 32

  function NumberField(tag: Byte, n: nat): Bytes
  {
    if n == 0 then [] else [tag] + PutVarint(n)
  }

  function ValueField(v: Bytes): Bytes
  {
    if v == [] then [] else [VALUE_TAG] + PutVarint(|v|) + v
  }

  function Serialize(c: CacheValue): (b: Bytes)
  {
    NumberField(FOUND_TAG, if c.found then 1 else 0) + ValueField(c.value)
    + NumberField(EXPIRES_TAG, c.expires) + NumberField(TTL_TAG, c.ttl)
  }

  datatype FieldStep = FieldStep(next: CacheValue, rest: Bytes)

  /** Stores one decoded field; a length that overruns the input or an unknown tag fails. */
  function StoreField(tag: nat, n: nat, rest: Bytes, acc: CacheValue): (r: Option<FieldStep>)
    ensures r.Some? ==> |r.value.rest| <= |rest|
  {
    if tag == FOUND_TAG then Some(FieldStep(acc.(found := n != 0), rest))
    else if tag == EXPIRES_TAG then Some(FieldStep(acc.(expires := n), rest))
    else if tag == TTL_TAG then Some(FieldStep(acc.(ttl := n), rest))
    else if tag == VALUE_TAG && n <= |rest| then Some(FieldStep(acc.(value := rest[..n]), rest[n..]))
    else None
  }

  /** Reads one field into `acc`. */
  function ReadField(b: Bytes, acc: CacheValue): (r: Option<FieldStep>)
    ensures r.Some? ==> |r.value.rest| < |b|
  {
    match ReadVarint(b, 5)
    case None => None
    case Some(tag) =>
      var body := b[tag.size..];
      match ReadVarint(body, 10)
      case None => None
      case Some(v) => StoreField(tag.value, v.value % U64_LIMIT, body[v.size..], acc)
  }

  function ParseInto(b: Bytes, acc: CacheValue): (r: Option<CacheValue>)
    decreases |b|
  {
    if b == [] then Some(acc)
    else
      match ReadField(b, acc)
      case None => None
      case Some(s) => ParseInto(s.rest, s.next)
  }

  function Parse(b: Bytes): Option<CacheValue> { ParseInto(b, EMPTY) }

  // ----- Round trip -----

  lemma ReadTag(tag: Byte, body: Bytes)
    requires tag < 128
    ensures ReadVarint([tag] + body, 5) == Some(Varint(tag, 1))
  {}

  lemma ReadTagged(tag: Byte, n: nat, rest: Bytes, acc: CacheValue)
    requires tag < 128 && n < U64_LIMIT
    ensures ReadField([tag] + (PutVarint(n) + rest), acc) == StoreField(tag, n, rest, acc)
  {
    var body := PutVarint(n) + rest;
    var b := [tag] + body;
    hide ReadVarint, StoreField, PutVarint;
    ReadTag(tag, body);
    assert b[1..] == body;
    Varint64RoundTrip(n, rest);
    assert body[|PutVarint(n)|..] == rest;
  }

  lemma ReadNumberField(tag: Byte, n: nat, rest: Bytes, acc: CacheValue)
    requires tag in {FOUND_TAG, EXPIRES_TAG, TTL_TAG} && 0 < n < U64_LIMIT
    ensures ReadField(NumberField(tag, n) + rest, acc) == StoreField(tag, n, rest, acc)
  {
    hide ReadField, StoreField, PutVarint;
    assert NumberField(tag, n) + rest == [tag] + (PutVarint(n) + rest);
    ReadTagged(tag, n, rest, acc);
  }

  lemma ReadValueField(v: Bytes, rest: Bytes, acc: CacheValue)
    requires 0 < |v| < U64_LIMIT
    ensures ReadField(ValueField(v) + rest, acc) == Some(FieldStep(acc.(value := v), rest))
  {
    hide ReadField, PutVarint;
    assert ValueField(v) + rest == [VALUE_TAG] + (PutVarint(|v|) + (v + rest));
    ReadTagged(VALUE_TAG, |v|, v + rest, acc);
    assert (v + rest)[..|v|] == v && (v + rest)[|v|..] == rest;
  }

  lemma ParseNumber(tag: Byte, n: nat, rest: Bytes, acc: CacheValue)
    requires tag in {FOUND_TAG, EXPIRES_TAG, TTL_TAG} && n < U64_LIMIT
    ensures ParseInto(NumberField(tag, n) + rest, acc)
         == ParseInto(rest, if n == 0 then acc
                            else if tag == FOUND_TAG then acc.(found := true)
                            else if tag == EXPIRES_TAG then acc.(expires := n)
                            else acc.(ttl := n))
  {
    if n == 0 {
      assert NumberField(tag, n) + rest == rest;
    } else {
      ReadNumberField(tag, n, rest, acc);
      hide ReadField;
    }
  }

  lemma ParseValue(v: Bytes, rest: Bytes, acc: CacheValue)
    requires |v| < U64_LIMIT
    ensures ParseInto(ValueField(v) + rest, acc) == ParseInto(rest, if v == [] then acc else acc.(value := v))
  {
    if v == [] {
      assert ValueField(v) + rest == rest;
    } else {
      ReadValueField(v, rest, acc);
      hide ReadField;
    }
  }

  /** Reading back what was written gives the same message. */
  lemma SerializeRoundTrip(c: CacheValue)
    requires WellFormed(c)
    ensures Parse(Serialize(c)) == Some(c)
  {
    hide NumberField, ValueField, ParseInto;
    var f := NumberField(FOUND_TAG, if c.found then 1 else 0);
    var v, e, t := ValueField(c.value), NumberField(EXPIRES_TAG, c.expires), NumberField(TTL_TAG, c.ttl);
    assert Serialize(c) == f + (v + (e + (t + [])));
    var a1 := EMPTY.(found := c.found);
    var a2 := a1.(value := c.value);
    var a3 := a2.(expires := c.expires);
    ParseNumber(FOUND_TAG, if c.found then 1 else 0, v + (e + (t + [])), EMPTY);
    ParseValue(c.value, e + (t + []), a1);
    ParseNumber(EXPIRES_TAG, c.expires, t + [], a2);
    ParseNumber(TTL_TAG, c.ttl, [], a3);
    assert ParseInto([], c) == Some(c) by { ParseEmpty(c); }
  }

  lemma ParseEmpty(c: CacheValue)
    ensures ParseInto([], c) == Some(c)
  {}

  // ----- The canonical form is the shortest -----

  lemma StoreFieldMinimal(tag: nat, n: nat, rest: Bytes, acc: CacheValue)
    requires StoreField(tag, n, rest, acc).Some?
    ensures var s := StoreField(tag, n, rest, acc).value;
            |Serialize(s.next)| + |s.rest| <= |Serialize(acc)| + |rest| + 1 + |PutVarint(n)|
  {
    hide PutVarint, Serialize, NumberField, ValueField;
    SerializeSize(acc);
    SerializeSize(StoreField(tag, n, rest, acc).value.next);
    FieldSizes(n, if tag == VALUE_TAG then rest[..n] else []);
  }

  lemma SerializeSize(c: CacheValue)
    ensures |Serialize(c)| == |NumberField(FOUND_TAG, if c.found then 1 else 0)| + |ValueField(c.value)|
                              + |NumberField(EXPIRES_TAG, c.expires)| + |NumberField(TTL_TAG, c.ttl)|
  {
    hide NumberField, ValueField;
  }

  lemma FieldSizes(n: nat, v: Bytes)
    ensures |NumberField(FOUND_TAG, if n != 0 then 1 else 0)| <= 1 + |PutVarint(n)|
    ensures |NumberField(EXPIRES_TAG, n)| <= 1 + |PutVarint(n)|
    ensures |NumberField(TTL_TAG, n)| <= 1 + |PutVarint(n)|
    ensures |v| == n ==> |ValueField(v)| <= 1 + |PutVarint(n)| + n
  {
    VarintOne();
    hide PutVarint;
  }

  lemma ReadFieldMinimal(b: Bytes, acc: CacheValue)
    requires ReadField(b, acc).Some?
    ensures var s := ReadField(b, acc).value;
            |Serialize(s.next)| + |s.rest| <= |Serialize(acc)| + |b|
  {
    hide StoreField, Serialize, ReadVarint, PutVarint;
    var tag := ReadVarint(b, 5).value;
    var body := b[tag.size..];
    var v := ReadVarint(body, 10).value;
    var n := v.value % U64_LIMIT;
    VarintMinimal(body, 10);
    PutVarintMonotone(n, v.value);
    StoreFieldMinimal(tag.value, n, body[v.size..], acc);
  }

  lemma VarintOne()
    ensures |PutVarint(1)| == 1
  {}

  lemma {:induction false} ParseIntoMinimal(b: Bytes, acc: CacheValue)
    requires ParseInto(b, acc).Some?
    ensures |Serialize(ParseInto(b, acc).value)| <= |Serialize(acc)| + |b|
    decreases |b|
  {
    hide Serialize, ReadField;
    if b != [] {
      ReadFieldMinimal(b, acc);
      var s := ReadField(b, acc).value;
      ParseIntoMinimal(s.rest, s.next);
    }
  }

  lemma {:induction false} ParseWellFormed(b: Bytes, acc: CacheValue)
    requires ParseInto(b, acc).Some? && acc.expires < U64_LIMIT && acc.ttl < U64_LIMIT
    ensures ParseInto(b, acc).value.expires < U64_LIMIT && ParseInto(b, acc).value.ttl < U64_LIMIT
    decreases |b|
  {
    hide ReadVarint;
    if b != [] {
      var s := ReadField(b, acc).value;
      ParseWellFormed(s.rest, s.next);
    }
  }

  /** No accepted encoding of a message is shorter than its canonical serialization. */
  lemma SerializeMinimal(b: Bytes)
    requires Parse(b).Some?
    ensures |Serialize(Parse(b).value)| <= |b|
  {
    ParseIntoMinimal(b, EMPTY);
  }

  /** The record payload for a value with an absolute expiry. */
  function Stamped(value: Bytes, expires: nat): Bytes { Serialize(CacheValue(false, value, expires, 0)) }

  lemma StampedSmallest(b: Bytes)
    requires Parse(b).Some?
    ensures |Stamped(Parse(b).value.value, Parse(b).value.expires)| <= |b|
  {
    hide ParseInto;
    SerializeMinimal(b);
  }

  lemma {:induction false} VarintWidth(n: nat, k: nat)
    requires k > 0 && n < Pow128(k)
    ensures |PutVarint(n)| <= k
    decreases k
  {
    if n >= 128 {
      assert n / 128 < Pow128(k - 1);
      VarintWidth(n / 128, k - 1);
    }
  }

  /** The envelope adds at most 15 bytes to a value of up to one mebibyte. */
  lemma StampedFits(value: Bytes, expires: nat)
    requires |value| <= 1024 * 1024 && expires < U64_LIMIT
    ensures |Stamped(value, expires)| <= |value| + 15
  {
    U64InTenBytes();
    assert Pow128(3) == 0x20_0000 by { assert Pow128(2) == 0x4000; }
    VarintWidth(expires, 10);
    VarintWidth(|value|, 3);
    hide PutVarint;
  }
}
