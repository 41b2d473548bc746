/**
 The log checksum: the reflected CRC-32 with polynomial 0xEDB88320 (section 8 of RFC 1952).
 The program computes it a byte at a time through a 256-entry table; the reference here
 feeds a shift register one message bit at a time.
 */
module Crc32 {
  import opened Common

  const POLY: bv32 := 0xedb88320
  const INIT: bv32 := 0xffff_ffff

  // Register operations, named so that proofs can treat them as an algebra.

  function Xor(a: bv32, b: bv32): bv32 { a ^ b }

  function Half(c: bv32): bv32 { c >> 1 }

  function Mask(c: bv32): bv32 { POLY & (0 - (c & 1)) }

  function Invert(c: bv32): bv32 { !c }

  function Byte0(c: bv32): bv32 { c & 255 }

  function Drop8(c: bv32): bv32 { c >> 8 }

  function Lift8(c: bv32): bv32 { c << 8 }

  /** One shift of the register, as the table constructor writes it. */
  function Shift(c: bv32): bv32 { Xor(Half(c), Mask(c)) }

  function Shifts(c: bv32, n: nat): bv32
    decreases n
  {
    if n == 0 then c else Shifts(Shift(c), n - 1)
  }

  /** The bits of a byte placed in a register, least significant first. */
  function FromBits(b0: bool, b1: bool, b2: bool, b3: bool, b4: bool, b5: bool, b6: bool, b7: bool): bv32
  {
    (if b0 then 1 else 0) | (if b1 then 2 else 0) | (if b2 then 4 else 0) | (if b3 then 8 else 0) |
    (if b4 then 16 else 0) | (if b5 then 32 else 0) | (if b6 then 64 else 0) | (if b7 then 128 else 0)
  }

  predicate Odd(n: int) { n % 2 == 1 }

  /** `n` halved `k` times. */
  function Down(n: nat, k: nat): nat { if k == 0 then n else Down(n, k - 1) / 2 }

  /** A message byte as a register value. */
  function Widen(b: Byte): bv32
  {
    FromBits(Odd(b), Odd(Down(b, 1)), Odd(Down(b, 2)), Odd(Down(b, 3)),
             Odd(Down(b, 4)), Odd(Down(b, 5)), Odd(Down(b, 6)), Odd(Down(b, 7)))
  }

  // ----- Reference: one message bit at a time -----

  predicate Low(c: bv32) { c & 1 == 1 }

  /** The low `n` bits of `w`, least significant first. */
  function Bits(w: bv32, n: nat): seq<bool>
    decreases n
  {
    if n == 0 then [] else [Low(w)] + Bits(Half(w), n - 1)
  }

  function MessageBits(data: Bytes): seq<bool>
  {
    if data == [] then [] else Bits(Widen(data[0]), 8) + MessageBits(data[1..])
  }

  /** A bit shifted out that differs from the message bit subtracts the polynomial. */
  function BitStep(c: bv32, bit: bool): bv32
  {
    if Low(c) != bit then (c >> 1) ^ POLY else c >> 1
  }

  function Feed(c: bv32, bits: seq<bool>): bv32
    decreases |bits|
  {
    if bits == [] then c else Feed(BitStep(c, bits[0]), bits[1..])
  }

  function Reference(data: Bytes): bv32 { Invert(Feed(INIT, MessageBits(data))) }

  // ----- The byte step -----

  function ByteStep(c: bv32, b: Byte): bv32 { Shifts(Xor(c, Widen(b)), 8) }

  function ByteSteps(c: bv32, data: Bytes): bv32
    decreases |data|
  {
    if data == [] then c else ByteSteps(ByteStep(c, data[0]), data[1..])
  }

  /** The checksum stored in a record. */
  function Crc(data: Bytes): bv32 { Invert(ByteSteps(INIT, data)) }

  // ----- Register algebra -----

  lemma XorAssoc(a: bv32, b: bv32, c: bv32)
    ensures Xor(Xor(a, b), c) == Xor(a, Xor(b, c))
  {}

  lemma XorComm(a: bv32, b: bv32)
    ensures Xor(a, b) == Xor(b, a)
  {}

  lemma XorSwap(a: bv32, b: bv32, c: bv32, d: bv32)
    ensures Xor(Xor(a, b), Xor(c, d)) == Xor(Xor(a, c), Xor(b, d))
  {
    hide Xor;
    XorAssoc(a, b, Xor(c, d));
    XorAssoc(b, c, d);
    XorComm(b, c);
    XorAssoc(c, b, d);
    XorAssoc(a, c, Xor(b, d));
  }

  lemma XorZero(a: bv32)
    ensures Xor(a, 0) == a
  {}

  lemma XorCancel(c: bv32, a: bv32, b: bv32)
    ensures Xor(c, a) == Xor(c, b) ==> a == b
    ensures Xor(a, c) == Xor(b, c) ==> a == b
  {}

  lemma HalfLinear(x: bv32, y: bv32)
    ensures Half(Xor(x, y)) == Xor(Half(x), Half(y))
  {}

  lemma MaskLinear(x: bv32, y: bv32)
    ensures Mask(Xor(x, y)) == Xor(Mask(x), Mask(y))
  {
    var a, b := x & 1, y & 1;
    assert (x ^ y) & 1 == a ^ b;
    MaskBit(a, b);
  }

  lemma MaskBit(a: bv32, b: bv32)
    requires a <= 1 && b <= 1
    ensures POLY & (0 - (a ^ b)) == (POLY & (0 - a)) ^ (POLY & (0 - b))
  {}

  lemma MaskCases(c: bv32)
    ensures Mask(c) == if Low(c) then POLY else 0
  {}

  lemma BitsFit(b0: bool, b1: bool, b2: bool, b3: bool, b4: bool, b5: bool, b6: bool, b7: bool)
    ensures var w := FromBits(b0, b1, b2, b3, b4, b5, b6, b7); Byte0(w) == w && Drop8(w) == 0
  {}

  lemma WidenFits(b: Byte)
    ensures Byte0(Widen(b)) == Widen(b) && Drop8(Widen(b)) == 0
  {
    hide FromBits, Byte0, Drop8, Odd, Down;
    BitsFit(Odd(b), Odd(Down(b, 1)), Odd(Down(b, 2)), Odd(Down(b, 3)),
            Odd(Down(b, 4)), Odd(Down(b, 5)), Odd(Down(b, 6)), Odd(Down(b, 7)));
  }

  lemma BitsInjective(a0: bool, a1: bool, a2: bool, a3: bool, a4: bool, a5: bool, a6: bool, a7: bool,
                      b0: bool, b1: bool, b2: bool, b3: bool, b4: bool, b5: bool, b6: bool, b7: bool)
    requires FromBits(a0, a1, a2, a3, a4, a5, a6, a7) == FromBits(b0, b1, b2, b3, b4, b5, b6, b7)
    ensures a0 == b0 && a1 == b1 && a2 == b2 && a3 == b3 && a4 == b4 && a5 == b5 && a6 == b6 && a7 == b7
  {}

  lemma {:induction false} SameHalves(a: nat, b: nat, k: nat)
    requires Down(a, k) == Down(b, k)
    requires forall i :: 0 <= i < k ==> Odd(Down(a, i)) == Odd(Down(b, i))
    ensures a == b
    decreases k
  {
    if k > 0 {
      var x, y := Down(a, k - 1), Down(b, k - 1);
      assert Odd(x) == Odd(y) && x / 2 == y / 2;
      assert x == y;
      SameHalves(a, b, k - 1);
    }
  }

  lemma WidenInjective(a: Byte, b: Byte)
    requires Widen(a) == Widen(b)
    ensures a == b
  {
    hide FromBits, Odd;
    BitsInjective(Odd(a), Odd(Down(a, 1)), Odd(Down(a, 2)), Odd(Down(a, 3)),
                  Odd(Down(a, 4)), Odd(Down(a, 5)), Odd(Down(a, 6)), Odd(Down(a, 7)),
                  Odd(b), Odd(Down(b, 1)), Odd(Down(b, 2)), Odd(Down(b, 3)),
                  Odd(Down(b, 4)), Odd(Down(b, 5)), Odd(Down(b, 6)), Odd(Down(b, 7)));
    DownOut(a);
    DownOut(b);
    assert Down(a, 0) == a && Down(b, 0) == b;
    hide Down;
    SameHalves(a, b, 8);
  }

  lemma DownOut(b: Byte)
    ensures Down(b, 8) == 0
  {
    assert Down(b, 1) < 128;
    assert Down(b, 2) < 64;
    assert Down(b, 3) < 32;
    assert Down(b, 4) < 16;
    assert Down(b, 5) < 8;
    assert Down(b, 6) < 4;
    assert Down(b, 7) < 2;
  }

  lemma ShiftLinear(x: bv32, y: bv32)
    ensures Shift(Xor(x, y)) == Xor(Shift(x), Shift(y))
  {
    hide Xor, Half, Mask;
    HalfLinear(x, y);
    MaskLinear(x, y);
    XorSwap(Half(x), Half(y), Mask(x), Mask(y));
  }

  lemma {:induction false} ShiftsLinear(x: bv32, y: bv32, n: nat)
    ensures Shifts(Xor(x, y), n) == Xor(Shifts(x, n), Shifts(y, n))
    decreases n
  {
    hide Xor, Shift;
    if n > 0 {
      ShiftLinear(x, y);
      ShiftsLinear(Shift(x), Shift(y), n - 1);
    }
  }

  /** The polynomial has its top bit set, so a shift can be undone. */
  lemma ShiftInjective(x: bv32, y: bv32)
    requires Shift(x) == Shift(y)
    ensures x == y
  {
    MaskCases(x);
    MaskCases(y);
    hide Mask;
  }

  lemma {:induction false} ShiftsInjective(x: bv32, y: bv32, n: nat)
    requires Shifts(x, n) == Shifts(y, n)
    ensures x == y
    decreases n
  {
    hide Shift;
    if n > 0 {
      ShiftsInjective(Shift(x), Shift(y), n - 1);
      ShiftInjective(x, y);
    }
  }

  lemma {:induction false} ShiftsAdd(c: bv32, m: nat, n: nat)
    ensures Shifts(c, m + n) == Shifts(Shifts(c, m), n)
    decreases m
  {
    hide Shift;
    if m > 0 { ShiftsAdd(Shift(c), m - 1, n); }
  }

  lemma EvenShift(h: bv32)
    requires !Low(h)
    ensures Shift(h) == Half(h)
  {
    MaskCases(h);
    XorZero(Half(h));
    hide Mask, Half, Xor;
  }

  function Halves(c: bv32, n: nat): bv32
    decreases n
  {
    if n == 0 then c else Halves(Half(c), n - 1)
  }

  lemma FourHalves(h: bv32)
    ensures Half(Half(Half(Half(h)))) == h >> 4
  {}

  lemma QuarterTwice(h: bv32)
    ensures Half(Half(Half(Half(Half(Half(Half(Half(h)))))))) == Drop8(h)
  {
    FourHalves(h);
    FourHalves(h >> 4);
    hide Half;
    assert (h >> 4) >> 4 == Drop8(h);
  }

  lemma EightHalves(h: bv32)
    ensures Halves(h, 8) == Drop8(h)
  {
    var h1 := Half(h); var h2 := Half(h1); var h3 := Half(h2); var h4 := Half(h3);
    var h5 := Half(h4); var h6 := Half(h5); var h7 := Half(h6); var h8 := Half(h7);
    QuarterTwice(h);
    hide Half, Drop8;
    assert Halves(h, 1) == h1 && Halves(h, 2) == h2 && Halves(h, 3) == h3 && Halves(h, 4) == h4;
    assert Halves(h, 5) == h5 && Halves(h, 6) == h6 && Halves(h, 7) == h7 && Halves(h, 8) == h8;
  }

  lemma ClearBits(h: bv32)
    requires Byte0(h) == 0
    ensures Halves(h, 8) == Drop8(h)
    ensures forall n :: 0 <= n < 8 ==> !Low(Halves(h, n))
  {
    var h1 := Half(h); var h2 := Half(h1); var h3 := Half(h2); var h4 := Half(h3);
    var h5 := Half(h4); var h6 := Half(h5); var h7 := Half(h6);
    assert !Low(h) && !Low(h1) && !Low(h2) && !Low(h3) && !Low(h4) && !Low(h5) && !Low(h6) && !Low(h7);
    EightHalves(h);
    hide Half, Low, Drop8, Byte0;
    assert Halves(h, 1) == h1 && Halves(h, 2) == h2 && Halves(h, 3) == h3 && Halves(h, 4) == h4;
    assert Halves(h, 5) == h5 && Halves(h, 6) == h6 && Halves(h, 7) == h7;
  }

  lemma {:induction false} EvenShifts(h: bv32, n: nat)
    requires forall k :: 0 <= k < n ==> !Low(Halves(h, k))
    ensures Shifts(h, n) == Halves(h, n)
    decreases n
  {
    hide Low, Half, Shift;
    if n > 0 {
      assert Halves(h, 0) == h;
      EvenShift(h);
      forall k | 0 <= k < n - 1 ensures !Low(Halves(Half(h), k)) {
        assert Halves(h, k + 1) == Halves(Half(h), k);
      }
      EvenShifts(Half(h), n - 1);
    }
  }

  /** Eight shifts of a register whose low byte is zero only move it. */
  lemma EightClearShifts(h: bv32)
    requires Byte0(h) == 0
    ensures Shifts(h, 8) == Drop8(h)
  {
    hide *;
    ClearBits(h);
    EvenShifts(h, 8);
  }

  /** All but the low byte of a register. */
  function High(c: bv32): bv32 { c & 0xffff_ff00 }

  lemma LowAndHigh(x: bv32)
    ensures Xor(Byte0(x), High(x)) == x
  {}

  lemma HighClear(x: bv32)
    ensures Byte0(High(x)) == 0
  {}

  lemma HighDrops(x: bv32)
    ensures Drop8(High(x)) == Drop8(x)
  {}

  lemma DropLinear(x: bv32, y: bv32)
    ensures Drop8(Xor(x, y)) == Xor(Drop8(x), Drop8(y))
  {}

  lemma SplitLowByte(c: bv32, w: bv32)
    requires Drop8(w) == 0
    ensures var high := High(Xor(c, w));
            Xor(c, w) == Xor(Byte0(Xor(c, w)), high) && Byte0(high) == 0 && Drop8(high) == Drop8(c)
  {
    hide *;
    LowAndHigh(Xor(c, w));
    HighClear(Xor(c, w));
    HighDrops(Xor(c, w));
    DropLinear(c, w);
    XorZero(Drop8(c));
  }

  /** The identity behind the table: only the low byte needs looking up. */
  lemma TableStep(c: bv32, b: Byte)
    ensures ByteStep(c, b) == Xor(Shifts(Byte0(Xor(c, Widen(b))), 8), Drop8(c))
  {
    hide Xor, Widen, Byte0, Drop8, Shifts, High;
    WidenFits(b);
    SplitLowByte(c, Widen(b));
    var high := High(Xor(c, Widen(b)));
    ShiftsLinear(Byte0(Xor(c, Widen(b))), high, 8);
    EightClearShifts(high);
  }

  // ----- The byte step equals eight bit steps -----

  lemma BitStepCases(c: bv32, bit: bool)
    ensures BitStep(c, bit) == Xor(Half(c), if Low(c) != bit then POLY else 0)
  {
    XorZero(Half(c));
  }

  lemma ShiftIsBitStep(c: bv32, w: bv32)
    ensures Shift(Xor(c, w)) == Xor(BitStep(c, Low(w)), Half(w))
  {
    var bit := Low(c) != Low(w);
    assert Low(Xor(c, w)) <==> bit;
    MaskCases(Xor(c, w));
    HalfLinear(c, w);
    BitStepCases(c, Low(w));
    XorAssoc(Half(c), Half(w), Mask(Xor(c, w)));
    XorComm(Half(w), Mask(Xor(c, w)));
    XorAssoc(Half(c), Mask(Xor(c, w)), Half(w));
    hide Mask, Half, Xor, Low, BitStep;
  }

  lemma {:induction false} BitsMatchShifts(c: bv32, w: bv32, n: nat)
    ensures Shifts(Xor(c, w), n) == Xor(Feed(c, Bits(w, n)), Halves(w, n))
    decreases n
  {
    hide Xor, Half, Low, Shift, BitStep;
    if n > 0 {
      ShiftIsBitStep(c, w);
      BitsMatchShifts(BitStep(c, Low(w)), Half(w), n - 1);
      assert Bits(w, n)[1..] == Bits(Half(w), n - 1);
    }
  }

  lemma {:induction false} FeedAppend(c: bv32, a: seq<bool>, b: seq<bool>)
    ensures Feed(c, a + b) == Feed(Feed(c, a), b)
    decreases |a|
  {
    hide BitStep;
    if a == [] {
      assert a + b == b;
    } else {
      assert (a + b)[1..] == a[1..] + b;
      FeedAppend(BitStep(c, a[0]), a[1..], b);
    }
  }

  lemma ByteStepIsBits(c: bv32, b: Byte)
    ensures ByteStep(c, b) == Feed(c, Bits(Widen(b), 8))
  {
    hide Xor, Widen, Drop8, Shifts, Feed, Bits, Halves;
    BitsMatchShifts(c, Widen(b), 8);
    EightHalves(Widen(b));
    WidenFits(b);
    XorZero(Feed(c, Bits(Widen(b), 8)));
  }

  lemma {:induction false} ByteStepsAreBits(c: bv32, data: Bytes)
    ensures ByteSteps(c, data) == Feed(c, MessageBits(data))
    decreases |data|
  {
    hide ByteStep, Widen, Bits, BitStep;
    if data != [] {
      var first := Bits(Widen(data[0]), 8);
      ByteStepIsBits(c, data[0]);
      FeedAppend(c, first, MessageBits(data[1..]));
      ByteStepsAreBits(ByteStep(c, data[0]), data[1..]);
    }
  }

  /** For every input the byte-wise checksum is the bit-at-a-time CRC-32. */
  lemma CrcIsReference(data: Bytes)
    ensures Crc(data) == Reference(data)
  {
    hide ByteSteps, Feed, MessageBits, Invert;
    ByteStepsAreBits(INIT, data);
  }

  // ----- The table-driven loops -----

  /** The eight shifts of one table entry. */
  method TableEntry(i: bv32) returns (c: bv32)
    ensures c == Shifts(i, 8)
  {
    c := i;
    for j := 0 to 8
      invariant Shifts(c, 8 - j) == Shifts(i, 8)
    {
      c := ShiftOnce(c);
    }
  }

  method ShiftOnce(c: bv32) returns (r: bv32)
    ensures r == Shift(c)
  {
    r := (c >> 1) ^ (POLY & (0 - (c & 1)));
  }

  method BuildTable() returns (table: array<bv32>)
    ensures fresh(table) && table.Length == 256
    ensures forall i :: 0 <= i < 256 ==> table[i] == Shifts(i as bv32, 8)
  {
    hide *;
    table := new bv32[256];
    for i := 0 to 256
      invariant forall k :: 0 <= k < i ==> table[k] == Shifts(k as bv32, 8)
    {
      var c := TableEntry(i as bv32);
      table[i] := c;
    }
  }

  lemma LowByteIndex(x: bv32)
    ensures 0 <= Byte0(x) as int < 256
    ensures (Byte0(x) as int) as bv32 == Byte0(x)
  {
    var y := x & 255;
    assert y < 256;
  }

  method TableCrc(data: Bytes) returns (result: bv32)
    ensures result == Reference(data)
  {
    hide Widen, Xor, Byte0, Drop8, Shifts, Feed, MessageBits, Invert;
    var table := BuildTable();
    var crc: bv32 := INIT;
    assert data[0..] == data;
    for i := 0 to |data|
      invariant forall k :: 0 <= k < 256 ==> table[k] == Shifts(k as bv32, 8)
      invariant ByteSteps(crc, data[i..]) == ByteSteps(INIT, data)
    {
      var x := Xor(crc, Widen(data[i]));
      LowByteIndex(x);
      TableStep(crc, data[i]);
      assert data[i..][1..] == data[i + 1..];
      crc := Xor(table[Byte0(x) as int], Drop8(crc));
    }
    result := Invert(crc);
    CrcIsReference(data);
  }

  // ----- Error detection -----

  lemma {:induction false} ByteStepsAppend(c: bv32, a: Bytes, b: Bytes)
    ensures ByteSteps(c, a + b) == ByteSteps(ByteSteps(c, a), b)
    decreases |a|
  {
    hide ByteStep;
    if a == [] {
      assert a + b == b;
    } else {
      assert (a + b)[1..] == a[1..] + b;
      ByteStepsAppend(ByteStep(c, a[0]), a[1..], b);
    }
  }

  lemma ByteStepInjective(x: bv32, y: bv32, b: Byte)
    requires ByteStep(x, b) == ByteStep(y, b)
    ensures x == y
  {
    hide Xor, Widen, Shifts;
    ShiftsInjective(Xor(x, Widen(b)), Xor(y, Widen(b)), 8);
    XorCancel(Widen(b), x, y);
  }

  lemma {:induction false} ByteStepsInjective(x: bv32, y: bv32, data: Bytes)
    requires ByteSteps(x, data) == ByteSteps(y, data)
    ensures x == y
    decreases |data|
  {
    hide ByteStep;
    if data != [] {
      ByteStepsInjective(ByteStep(x, data[0]), ByteStep(y, data[0]), data[1..]);
      ByteStepInjective(x, y, data[0]);
    }
  }

  /** Up to four bytes as one word, first byte lowest. */
  function Pack(bs: Bytes): bv32
    requires |bs| <= 4
  {
    if bs == [] then 0 else Xor(Widen(bs[0]), Lift8(Pack(bs[1..])))
  }

  /** Bits a word of `n` bytes cannot reach. */
  predicate Reach(c: bv32, n: nat)
  {
    if n == 0 then c == 0
    else if n == 1 then c & 0xffff_ff00 == 0
    else if n == 2 then c & 0xffff_0000 == 0
    else n == 3 ==> c & 0xff00_0000 == 0
  }

  lemma ReachStep(low: bv32, rest: bv32, n: nat)
    requires Byte0(low) == low && Reach(rest, n) && n <= 2
    ensures Reach(Xor(low, Lift8(rest)), n + 1)
  {
    if n == 0 {} else if n == 1 {} else {}
  }

  lemma ReachLift(rest: bv32, n: nat)
    requires Reach(rest, n) && n <= 3
    ensures Drop8(Lift8(rest)) == rest && Byte0(Lift8(rest)) == 0
  {
    if n == 0 {} else if n == 1 {} else if n == 2 {} else {}
  }

  lemma {:induction false} PackReach(bs: Bytes)
    requires |bs| <= 3
    ensures Reach(Pack(bs), |bs|)
  {
    hide Xor, Widen, Lift8, Byte0, Reach, Drop8;
    if bs == [] {
      assert Reach(0, 0) by { ReachZero(); }
    } else {
      WidenFits(bs[0]);
      PackReach(bs[1..]);
      ReachStep(Widen(bs[0]), Pack(bs[1..]), |bs| - 1);
    }
  }

  lemma ReachZero()
    ensures Reach(0, 0)
  {}

  lemma PackSplit(low: bv32, rest: bv32)
    requires Byte0(low) == low && Drop8(Lift8(rest)) == rest
    ensures Byte0(Xor(low, Lift8(rest))) == low
    ensures Drop8(Xor(low, Lift8(rest))) == rest
  {}

  lemma {:induction false} PackInjective(a: Bytes, b: Bytes)
    requires |a| == |b| <= 4 && Pack(a) == Pack(b)
    ensures a == b
  {
    hide Xor, Widen, Lift8, Byte0, Drop8, Reach;
    if a != [] {
      PackHead(a);
      PackHead(b);
      WidenInjective(a[0], b[0]);
      PackInjective(a[1..], b[1..]);
      assert a == [a[0]] + a[1..] && b == [b[0]] + b[1..];
    }
  }

  lemma PackHead(a: Bytes)
    requires 0 < |a| <= 4
    ensures Byte0(Pack(a)) == Widen(a[0]) && Drop8(Pack(a)) == Pack(a[1..])
    ensures Byte0(Lift8(Pack(a[1..]))) == 0 && Drop8(Lift8(Pack(a[1..]))) == Pack(a[1..])
  {
    hide Xor, Widen, Lift8, Byte0, Drop8, Reach;
    WidenFits(a[0]);
    PackReach(a[1..]);
    ReachLift(Pack(a[1..]), |a| - 1);
    PackSplit(Widen(a[0]), Pack(a[1..]));
  }

  /** A run of at most four bytes enters the register as one word. */
  lemma {:induction false} BurstAsWord(c: bv32, bs: Bytes)
    requires |bs| <= 4
    ensures ByteSteps(c, bs) == Shifts(Xor(c, Pack(bs)), 8 * |bs|)
    decreases |bs|
  {
    hide Xor, Widen, Lift8, Byte0, Drop8, Reach, Shift;
    if bs == [] {
      XorZero(c);
    } else {
      hide Shifts;
      var w, high := Widen(bs[0]), Lift8(Pack(bs[1..]));
      PackHead(bs);
      BurstAsWord(ByteStep(c, bs[0]), bs[1..]);
      ShiftsLinear(Xor(c, w), high, 8);
      EightClearShifts(high);
      XorAssoc(c, w, high);
      ShiftsAdd(Xor(c, Pack(bs)), 8, 8 * |bs[1..]|);
    }
  }

  lemma {:induction false} BurstChangesRegister(c: bv32, a: Bytes, b: Bytes)
    requires |a| == |b| <= 4 && a != b
    ensures ByteSteps(c, a) != ByteSteps(c, b)
  {
    hide *;
    BurstAsWord(c, a);
    BurstAsWord(c, b);
    if ByteSteps(c, a) == ByteSteps(c, b) {
      ShiftsInjective(Xor(c, Pack(a)), Xor(c, Pack(b)), 8 * |a|);
      XorCancel(c, Pack(a), Pack(b));
      PackInjective(a, b);
    }
  }

  /** Any change confined to four consecutive bytes changes the checksum. */
  lemma BurstDetected(before: Bytes, a: Bytes, b: Bytes, after: Bytes)
    requires |a| == |b| <= 4 && a != b
    ensures Crc(before + a + after) != Crc(before + b + after)
  {
    hide ByteSteps, Invert;
    var c := ByteSteps(INIT, before);
    ByteStepsAppend(INIT, before + a, after);
    ByteStepsAppend(INIT, before + b, after);
    ByteStepsAppend(INIT, before, a);
    ByteStepsAppend(INIT, before, b);
    BurstChangesRegister(c, a, b);
    var x, y := ByteSteps(c, a), ByteSteps(c, b);
    if ByteSteps(x, after) == ByteSteps(y, after) {
      ByteStepsInjective(x, y, after);
    }
    InvertInjective(ByteSteps(x, after), ByteSteps(y, after));
  }

  lemma InvertInjective(x: bv32, y: bv32)
    ensures Invert(x) == Invert(y) ==> x == y
  {}

  // ----- The checksum as the number stored in a record -----

  function CrcCode(data: Bytes): (n: nat)
    ensures n < U32_LIMIT
  {
    CodeRange(Crc(data));
    Crc(data) as nat
  }

  lemma CodeRange(c: bv32)
    ensures 0 <= c as int < U32_LIMIT
  {}

  lemma CodeInjective(a: bv32, b: bv32)
    requires a as nat == b as nat
    ensures a == b
  {
    assert (a as int) as bv32 == a && (b as int) as bv32 == b;
  }

  lemma BurstChangesCode(before: Bytes, a: Bytes, b: Bytes, after: Bytes)
    requires |a| == |b| <= 4 && a != b
    ensures CrcCode(before + a + after) != CrcCode(before + b + after)
  {
    hide Crc;
    BurstDetected(before, a, b, after);
    if CrcCode(before + a + after) == CrcCode(before + b + after) {
      CodeInjective(Crc(before + a + after), Crc(before + b + after));
    }
  }
}
