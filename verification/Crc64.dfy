/**
 CRC-64 (Jones). The bit-by-bit routine of crc64.c, the table generator and the
 slice-by-8 routines of crcspeed.c, and the proof that they all compute one function.
 */
module Crc64 {
  import opened Prelude

  const POLY: bv64 := 0xad93d23594c935a9
  const RPOLY: bv64 := 0x95ac9329ac4bc9b5

  // ----- reflection

  function PushBit(ret: bv64, data: bv64): bv64 {
    (ret << 1) | (data & 1)
  }

  function DropBit(data: bv64): bv64 {
    data >> 1
  }

  /** crc_reflect, as a function of what its loop still has to do. */
  function ReflectInto(ret: bv64, data: bv64, n: nat): bv64
    decreases n
  {
    if n == 0 then ret else ReflectInto(PushBit(ret, data), DropBit(data), n - 1)
  }

  function Rev8(a: bv64): bv64 {
    var b := ((a >> 8) & 0x00ff00ff00ff00ff) | ((a & 0x00ff00ff00ff00ff) << 8);
    var c := ((b >> 16) & 0x0000ffff0000ffff) | ((b & 0x0000ffff0000ffff) << 16);
    (c >> 32) | (c << 32)
  }

  /** Each byte reflected in its place. */
  function MirrorBytes(a: bv64): bv64 {
    var b := ((a >> 1) & 0x5555555555555555) | ((a & 0x5555555555555555) << 1);
    var c := ((b >> 2) & 0x3333333333333333) | ((b & 0x3333333333333333) << 2);
    ((c >> 4) & 0x0f0f0f0f0f0f0f0f) | ((c & 0x0f0f0f0f0f0f0f0f) << 4)
  }

  /** The reflection of a 64-bit word. */
  function Mirror(a: bv64): bv64 {
    var b := ((a >> 1) & 0x5555555555555555) | ((a & 0x5555555555555555) << 1);
    var c := ((b >> 2) & 0x3333333333333333) | ((b & 0x3333333333333333) << 2);
    var d := ((c >> 4) & 0x0f0f0f0f0f0f0f0f) | ((c & 0x0f0f0f0f0f0f0f0f) << 4);
    var e := ((d >> 8) & 0x00ff00ff00ff00ff) | ((d & 0x00ff00ff00ff00ff) << 8);
    var f := ((e >> 16) & 0x0000ffff0000ffff) | ((e & 0x0000ffff0000ffff) << 16);
    (f >> 32) | (f << 32)
  }

  lemma MirrorIsBoth(a: bv64)
    ensures Mirror(a) == Rev8(MirrorBytes(a))
  {
  }

  function PushByte(ret: bv64, data: bv64): bv64 {
    (ret << 8) | MirrorBytes(data & 0xff)
  }

  function DropByte(data: bv64): bv64 {
    data >> 8
  }

  lemma EightBits(ret: bv64, data: bv64)
    ensures var r1, d1 := PushBit(ret, data), DropBit(data);
            var r2, d2 := PushBit(r1, d1), DropBit(d1);
            var r3, d3 := PushBit(r2, d2), DropBit(d2);
            var r4, d4 := PushBit(r3, d3), DropBit(d3);
            var r5, d5 := PushBit(r4, d4), DropBit(d4);
            var r6, d6 := PushBit(r5, d5), DropBit(d5);
            var r7, d7 := PushBit(r6, d6), DropBit(d6);
            PushBit(r7, d7) == PushByte(ret, data) && DropBit(d7) == DropByte(data)
  {
  }

  lemma ReflectEight(ret: bv64, data: bv64, n: nat)
    requires n >= 8
    ensures ReflectInto(ret, data, n) == ReflectInto(PushByte(ret, data), DropByte(data), n - 8)
  {
    hide *;
    var r1, d1 := PushBit(ret, data), DropBit(data);
    var r2, d2 := PushBit(r1, d1), DropBit(d1);
    var r3, d3 := PushBit(r2, d2), DropBit(d2);
    var r4, d4 := PushBit(r3, d3), DropBit(d3);
    var r5, d5 := PushBit(r4, d4), DropBit(d4);
    var r6, d6 := PushBit(r5, d5), DropBit(d5);
    var r7, d7 := PushBit(r6, d6), DropBit(d6);
    ReflectOne(ret, data, n);
    ReflectOne(r1, d1, n - 1);
    ReflectOne(r2, d2, n - 2);
    ReflectOne(r3, d3, n - 3);
    ReflectOne(r4, d4, n - 4);
    ReflectOne(r5, d5, n - 5);
    ReflectOne(r6, d6, n - 6);
    ReflectOne(r7, d7, n - 7);
    EightBits(ret, data);
  }

  lemma ReflectOne(ret: bv64, data: bv64, n: nat)
    requires n > 0
    ensures ReflectInto(ret, data, n) == ReflectInto(PushBit(ret, data), DropBit(data), n - 1)
  {
  }

  lemma ReflectFirst(data: bv64)
    ensures PushBit(0, data) == data & 1
  {
  }

  /** A push of the lowest byte of m as it stands. */
  function Append(ret: bv64, m: bv64): bv64 {
    (ret << 8) | (m & 0xff)
  }

  lemma PushIsAppend(ret: bv64, data: bv64)
    ensures PushByte(ret, data) == Append(ret, MirrorBytes(data))
    ensures MirrorBytes(DropByte(data)) == DropByte(MirrorBytes(data))
  {
  }

  /** The bytes appended one by one, lowest first, come out in the opposite order. */
  lemma EightBytes(m: bv64)
    ensures var r1, m1 := Append(0, m), DropByte(m);
            var r2, m2 := Append(r1, m1), DropByte(m1);
            var r3, m3 := Append(r2, m2), DropByte(m2);
            var r4, m4 := Append(r3, m3), DropByte(m3);
            var r5, m5 := Append(r4, m4), DropByte(m4);
            var r6, m6 := Append(r5, m5), DropByte(m5);
            var r7, m7 := Append(r6, m6), DropByte(m6);
            Append(r7, m7) == Rev8(m)
  {
  }

  lemma ReflectByte(ret: bv64, data: bv64, m: bv64, n: nat)
    requires n >= 8 && m == MirrorBytes(data)
    ensures ReflectInto(ret, data, n) == ReflectInto(Append(ret, m), DropByte(data), n - 8)
    ensures MirrorBytes(DropByte(data)) == DropByte(m)
  {
    hide *;
    ReflectEight(ret, data, n);
    PushIsAppend(ret, data);
  }

  /** The loop of crc_reflect reverses the word. */
  lemma ReflectIsMirror(data: bv64)
    ensures ReflectInto(0, data, 64) == Mirror(data)
  {
    hide ReflectInto, Append, DropByte, MirrorBytes, Rev8, Mirror;
    MirrorIsBoth(data);
    var m := MirrorBytes(data);
    var r1, d1, m1 := Append(0, m), DropByte(data), DropByte(m);
    var r2, d2, m2 := Append(r1, m1), DropByte(d1), DropByte(m1);
    var r3, d3, m3 := Append(r2, m2), DropByte(d2), DropByte(m2);
    var r4, d4, m4 := Append(r3, m3), DropByte(d3), DropByte(m3);
    var r5, d5, m5 := Append(r4, m4), DropByte(d4), DropByte(m4);
    var r6, d6, m6 := Append(r5, m5), DropByte(d5), DropByte(m5);
    var r7, d7, m7 := Append(r6, m6), DropByte(d6), DropByte(m6);
    ReflectByte(0, data, m, 64);
    ReflectByte(r1, d1, m1, 56);
    ReflectByte(r2, d2, m2, 48);
    ReflectByte(r3, d3, m3, 40);
    ReflectByte(r4, d4, m4, 32);
    ReflectByte(r5, d5, m5, 24);
    ReflectByte(r6, d6, m6, 16);
    ReflectByte(r7, d7, m7, 8);
    ReflectNothing(Append(r7, m7), DropByte(d7));
    EightBytes(m);
  }

  lemma ReflectNothing(ret: bv64, data: bv64)
    ensures ReflectInto(ret, data, 0) == ret
  {
  }

  /** crc_reflect, with the width _crc64 passes. */
  method Reflect(word: bv64) returns (ret: bv64)
    ensures ret == Mirror(word)
  {
    hide Mirror;
    var data := word;
    ret := data & 1;
    ReflectFirst(word);
    ReflectIsMirror(word);
    for i := 1 to 64
      invariant ReflectInto(ret, DropBit(data), 64 - i) == Mirror(word)
    {
      data := data >> 1;
      ret := (ret << 1) | (data & 1);
    }
  }

  // ----- the bit-by-bit routine

  predicate TopSet(x: bv64) {
    x & 0x8000000000000000 != 0
  }

  predicate LowSet(x: bv64) {
    x & 1 != 0
  }

  function Twice(x: bv64): bv64 {
    x << 1
  }

  function AddPoly(x: bv64): bv64 {
    x ^ POLY
  }

  function Xor(a: bv64, b: bv64): bv64 {
    a ^ b
  }

  function AddReflectedPoly(x: bv64): bv64 {
    Xor(x, RPOLY)
  }

  /** One bit of input, as _crc64 works: from the top, with the input bit folded into the decision. */
  function TopStep(crc: bv64, bit: bool): bv64 {
    if TopSet(crc) != bit then AddPoly(Twice(crc)) else Twice(crc)
  }

  /** The same in reflected order. */
  function LowStep(crc: bv64, bit: bool): bv64 {
    if LowSet(crc) != bit then AddReflectedPoly(DropBit(crc)) else DropBit(crc)
  }

  lemma MirrorStep(crc: bv64, bit: bool)
    ensures Mirror(TopStep(crc, bit)) == LowStep(Mirror(crc), bit)
  {
    hide Mirror, TopSet, LowSet, Twice, DropBit, AddPoly, AddReflectedPoly;
    MirrorTwice(crc);
    MirrorTop(crc);
    MirrorPoly(Twice(crc));
  }

  lemma MirrorTwice(a: bv64)
    ensures Mirror(Twice(a)) == DropBit(Mirror(a))
  {
    hide Mirror;
    MirrorShifted(a);
  }

  lemma MirrorShifted(a: bv64)
    ensures Mirror(a << 1) == Mirror(a) >> 1
  {
  }

  lemma MirrorTop(crc: bv64)
    ensures TopSet(crc) == LowSet(Mirror(crc))
  {
  }

  lemma MirrorPoly(x: bv64)
    ensures Mirror(AddPoly(x)) == AddReflectedPoly(Mirror(x))
  {
  }

  lemma MirrorZero()
    ensures Mirror(0) == 0
  {
  }

  /** Bit i of a byte, from the lowest. */
  predicate Bit(b: Byte, mask: Byte) {
    b & mask != 0
  }

  /** The masks 1, 2, 4, ... 128 the inner loop shifts through, from mask on. */
  function TopBits(crc: bv64, b: Byte, mask: Byte, n: nat): bv64
    decreases n
  {
    if n == 0 then crc else TopBits(TopStep(crc, Bit(b, mask)), b, mask << 1, n - 1)
  }

  function LowBits(crc: bv64, b: Byte, mask: Byte, n: nat): bv64
    decreases n
  {
    if n == 0 then crc else LowBits(LowStep(crc, Bit(b, mask)), b, mask << 1, n - 1)
  }

  function TopByte(crc: bv64, b: Byte): bv64 {
    TopBits(crc, b, 1, 8)
  }

  function LowByte(crc: bv64, b: Byte): bv64 {
    LowBits(crc, b, 1, 8)
  }

  lemma {:induction false} MirrorBits(crc: bv64, b: Byte, mask: Byte, n: nat)
    ensures Mirror(TopBits(crc, b, mask, n)) == LowBits(Mirror(crc), b, mask, n)
    decreases n
  {
    hide Mirror, TopStep, LowStep, Bit;
    if n > 0 {
      MirrorStep(crc, Bit(b, mask));
      MirrorBits(TopStep(crc, Bit(b, mask)), b, mask << 1, n - 1);
    }
  }

  /** The CRC of a byte string from a starting value: the reference every routine is compared with. */
  function Crc(crc: bv64, s: seq<Byte>): bv64
    decreases |s|
  {
    if s == [] then crc else Crc(LowByte(crc, s[0]), s[1..])
  }

  /** Chaining over a split is one call on the whole. */
  lemma {:induction false} CrcAppend(crc: bv64, a: seq<Byte>, b: seq<Byte>)
    ensures Crc(crc, a + b) == Crc(Crc(crc, a), b)
    decreases |a|
  {
    hide LowByte;
    if a == [] {
      assert a + b == b;
    } else {
      assert (a + b)[1..] == a[1..] + b;
      CrcAppend(LowByte(crc, a[0]), a[1..], b);
    }
  }

  function TopCrc(crc: bv64, s: seq<Byte>): bv64
    decreases |s|
  {
    if s == [] then crc else TopCrc(TopByte(crc, s[0]), s[1..])
  }

  lemma {:induction false} MirrorCrc(crc: bv64, s: seq<Byte>)
    ensures Mirror(TopCrc(crc, s)) == Crc(Mirror(crc), s)
    decreases |s|
  {
    hide Mirror, TopBits, LowBits;
    if s != [] {
      MirrorBits(crc, s[0], 1, 8);
      MirrorCrc(TopByte(crc, s[0]), s[1..]);
    }
  }

  /** The inner loop of _crc64, over the bits of one byte. */
  method FeedByte(start: bv64, c: Byte) returns (crc: bv64)
    ensures crc == TopByte(start, c)
  {
    hide TopSet, Bit, Twice, AddPoly, MaskAt;
    crc := start;
    var i: Byte := 1;
    ghost var n: nat := 8;
    MaskLeft();
    while i != 0
      invariant TopBits(crc, c, i, n) == TopByte(start, c)
      invariant MaskAt(i, n)
      decreases n
    {
      MaskShifts(i, n);
      var bit := TopSet(crc);
      if Bit(c, i) {
        bit := !bit;
      }
      crc := Twice(crc);
      if bit {
        crc := AddPoly(crc);
      }
      i := i << 1;
      n := n - 1;
    }
    MaskGone(i, n);
  }

  /** _crc64: the CRC of the string, started from the reflection of its first argument. */
  method BitByBit(start: bv64, s: seq<Byte>) returns (r: bv64)
    ensures r == Crc(Mirror(start), s)
    ensures start == 0 ==> r == Crc(0, s)
  {
    hide Mirror, TopByte, Crc;
    var crc := start;
    assert s[0..] == s;
    for offset := 0 to |s|
      invariant TopCrc(crc, s[offset..]) == TopCrc(start, s)
    {
      crc := FeedByte(crc, s[offset]);
      assert s[offset..][1..] == s[offset + 1..];
    }
    r := Reflect(crc);
    MirrorCrc(start, s);
    MirrorZero();
  }

  /** The mask with n shifts to go before it is zero. */
  predicate MaskAt(mask: Byte, n: nat) {
    n <= 8 && mask == if n == 8 then 1 else if n == 7 then 2 else if n == 6 then 4 else if n == 5 then 8
                      else if n == 4 then 16 else if n == 3 then 32 else if n == 2 then 64 else if n == 1 then 128
                      else 0
  }

  lemma MaskLeft()
    ensures MaskAt(1, 8)
  {
  }

  lemma MaskShifts(mask: Byte, n: nat)
    requires MaskAt(mask, n) && mask != 0
    ensures n > 0 && MaskAt(mask << 1, n - 1)
  {
  }

  lemma MaskGone(mask: Byte, n: nat)
    requires MaskAt(mask, n) && mask == 0
    ensures n == 0
  {
  }

  // ----- eight zero bits at a time

  /** One bit of zero input. */
  function Zero(x: bv64): bv64 {
    LowStep(x, false)
  }

  function Zeros(x: bv64, n: nat): bv64
    decreases n
  {
    if n == 0 then x else Zeros(Zero(x), n - 1)
  }

  /** One byte of zero input. */
  function Roll(x: bv64): bv64 {
    Zeros(x, 8)
  }

  lemma XorBits(a: bv64, b: bv64)
    ensures LowSet(Xor(a, b)) == (LowSet(a) != LowSet(b))
    ensures DropBit(Xor(a, b)) == Xor(DropBit(a), DropBit(b))
  {
  }

  lemma XorPoly(a: bv64, b: bv64)
    ensures AddReflectedPoly(Xor(a, b)) == Xor(AddReflectedPoly(a), b)
    ensures AddReflectedPoly(Xor(a, b)) == Xor(a, AddReflectedPoly(b))
    ensures Xor(AddReflectedPoly(a), AddReflectedPoly(b)) == Xor(a, b)
  {
    hide Xor;
    XorAssoc(a, b, RPOLY);
    XorComm(b, RPOLY);
    XorAssoc(a, RPOLY, b);
    var c := Xor(a, RPOLY);
    XorComm(b, RPOLY);
    XorAssoc(c, RPOLY, b);
    XorAssoc(a, RPOLY, RPOLY);
    XorSelf(RPOLY);
    XorZero(a);
  }

  lemma XorAssoc(a: bv64, b: bv64, c: bv64)
    ensures Xor(a, Xor(b, c)) == Xor(Xor(a, b), c)
  {
  }

  lemma XorComm(a: bv64, b: bv64)
    ensures Xor(a, b) == Xor(b, a)
  {
  }

  lemma XorSelf(a: bv64)
    ensures Xor(a, a) == 0
  {
  }

  lemma XorZero(x: bv64)
    ensures Xor(0, x) == x && Xor(x, 0) == x
  {
  }

  lemma ZeroXor(a: bv64, b: bv64)
    ensures Zero(Xor(a, b)) == Xor(Zero(a), Zero(b))
  {
    hide Xor, LowSet, DropBit, AddReflectedPoly;
    XorBits(a, b);
    XorPoly(DropBit(a), DropBit(b));
  }

  lemma {:induction false} ZerosXor(a: bv64, b: bv64, n: nat)
    ensures Zeros(Xor(a, b), n) == Xor(Zeros(a, n), Zeros(b, n))
    decreases n
  {
    hide Zero, Xor;
    if n > 0 {
      ZeroXor(a, b);
      ZerosXor(Zero(a), Zero(b), n - 1);
    }
  }

  /** The bits of b from mask on: c holds the n of them that are left. */
  predicate Rest(b: Byte, mask: Byte, n: nat, c: bv64) {
    && MaskAt(mask, n)
    && c == if n == 8 then b as bv64 else if n == 7 then (b as bv64) >> 1 else if n == 6 then (b as bv64) >> 2
            else if n == 5 then (b as bv64) >> 3 else if n == 4 then (b as bv64) >> 4
            else if n == 3 then (b as bv64) >> 5 else if n == 2 then (b as bv64) >> 6
            else if n == 1 then (b as bv64) >> 7 else 0
  }

  lemma RestStep(b: Byte, mask: Byte, n: nat, c: bv64)
    requires Rest(b, mask, n, c) && n > 0
    ensures Bit(b, mask) == LowSet(c) && Rest(b, mask << 1, n - 1, DropBit(c))
  {
  }

  lemma InputIsXor(y: bv64, c: bv64)
    ensures Zero(Xor(y, c)) == Xor(LowStep(y, LowSet(c)), DropBit(c))
  {
    hide Xor, LowSet, DropBit, AddReflectedPoly;
    XorBits(y, c);
    XorPoly(DropBit(y), DropBit(c));
  }

  lemma {:induction false} BitsAreXor(y: bv64, b: Byte, mask: Byte, n: nat, c: bv64)
    requires Rest(b, mask, n, c)
    ensures LowBits(y, b, mask, n) == Zeros(Xor(y, c), n)
    decreases n
  {
    hide LowStep, Zero, Xor, Rest, DropBit, LowSet, Bit;
    if n == 0 {
      RestNothing(b, mask, c, y);
    } else {
      RestStep(b, mask, n, c);
      InputIsXor(y, c);
      BitsAreXor(LowStep(y, Bit(b, mask)), b, mask << 1, n - 1, DropBit(c));
    }
  }

  lemma RestNothing(b: Byte, mask: Byte, c: bv64, y: bv64)
    requires Rest(b, mask, 0, c)
    ensures Xor(y, c) == y
  {
  }

  /** A byte of input is the byte added to the register, then a byte of zeros. */
  lemma InputByte(y: bv64, b: Byte)
    ensures LowByte(y, b) == Roll(Xor(y, b as bv64))
  {
    hide LowBits, Zeros, Xor;
    BitsAreXor(y, b, 1, 8, b as bv64);
  }

  lemma ZeroClear(x: bv64)
    requires !LowSet(x)
    ensures Zero(x) == DropBit(x)
  {
  }

  predicate Clear(x: bv64) {
    x & 0xff == 0
  }

  lemma ClearBits(x: bv64)
    requires Clear(x)
    ensures var d1 := DropBit(x); var d2 := DropBit(d1); var d3 := DropBit(d2); var d4 := DropBit(d3);
            var d5 := DropBit(d4); var d6 := DropBit(d5); var d7 := DropBit(d6);
            && !LowSet(x) && !LowSet(d1) && !LowSet(d2) && !LowSet(d3)
            && !LowSet(d4) && !LowSet(d5) && !LowSet(d6) && !LowSet(d7)
            && DropBit(d7) == DropByte(x)
  {
  }

  /** Zero input to a register whose lowest byte is clear only shifts it. */
  lemma RollClear(x: bv64)
    requires Clear(x)
    ensures Roll(x) == DropByte(x)
  {
    hide Zero, DropBit, LowSet, Clear, DropByte, Zeros;
    ClearBits(x);
    var d1 := DropBit(x);
    var d2 := DropBit(d1);
    var d3 := DropBit(d2);
    var d4 := DropBit(d3);
    var d5 := DropBit(d4);
    var d6 := DropBit(d5);
    var d7 := DropBit(d6);
    ZerosClear(x, 8);
    ZerosClear(d1, 7);
    ZerosClear(d2, 6);
    ZerosClear(d3, 5);
    ZerosClear(d4, 4);
    ZerosClear(d5, 3);
    ZerosClear(d6, 2);
    ZerosClear(d7, 1);
    NoZeros(DropBit(d7));
  }

  lemma ZerosClear(x: bv64, n: nat)
    requires !LowSet(x) && n > 0
    ensures Zeros(x, n) == Zeros(DropBit(x), n - 1)
  {
    hide Zero, DropBit, LowSet;
    ZeroClear(x);
  }

  lemma NoZeros(x: bv64)
    ensures Zeros(x, 0) == x
  {
  }

  /** The lowest byte of a word. */
  function Lowest(x: bv64): Byte {
    (x & 0xff) as Byte
  }

  lemma SplitWord(x: bv64)
    ensures var high := x & 0xffffffffffffff00;
            x == Xor(Lowest(x) as bv64, high) && Clear(high) && DropByte(high) == DropByte(x)
  {
  }

  /** Only the lowest byte needs the polynomial: the table lookup. */
  lemma RollSplit(x: bv64)
    ensures Roll(x) == Xor(Roll(Lowest(x) as bv64), DropByte(x))
  {
    hide Zeros, Xor, Clear, DropByte, Lowest;
    SplitWord(x);
    var high := x & 0xffffffffffffff00;
    ZerosXor(Lowest(x) as bv64, high, 8);
    RollClear(high);
  }

  // ----- the tables

  function Rolls(n: nat, x: bv64): bv64 {
    if n == 0 then x else Rolls(n - 1, Roll(x))
  }

  lemma {:induction false} RollsXor(n: nat, a: bv64, b: bv64)
    ensures Rolls(n, Xor(a, b)) == Xor(Rolls(n, a), Rolls(n, b))
  {
    hide Roll, Xor;
    if n > 0 {
      assert Roll(Xor(a, b)) == Xor(Roll(a), Roll(b)) by { RollXor(a, b); }
      RollsXor(n - 1, Roll(a), Roll(b));
    }
  }

  lemma RollXor(a: bv64, b: bv64)
    ensures Roll(Xor(a, b)) == Xor(Roll(a), Roll(b))
  {
    hide Zeros, Xor;
    ZerosXor(a, b, 8);
  }

  lemma {:induction false} RollLast(n: nat, x: bv64)
    ensures Rolls(n + 1, x) == Roll(Rolls(n, x))
  {
    hide Roll;
    if n > 0 {
      RollLast(n - 1, Roll(x));
    }
  }

  /** Entry b of table k: the byte b followed by k + 1 bytes of zeros less one shift, that is, k + 1 rolls. */
  function Entry(k: nat, b: Byte): bv64 {
    Rolls(k + 1, b as bv64)
  }

  lemma FirstEntry(b: Byte)
    ensures Crc(0, [b]) == Entry(0, b)
  {
    hide LowByte, Roll, Xor;
    assert [b][1..] == [];
    InputByte(0, b);
    assert Xor(0, b as bv64) == b as bv64 by { XorZero(b as bv64); }
    assert Rolls(1, b as bv64) == Rolls(0, Roll(b as bv64));
  }

  /** Each table follows from the one before it by one lookup in the first. */
  lemma NextEntry(k: nat, b: Byte)
    ensures Entry(k + 1, b) == Xor(Entry(0, Lowest(Entry(k, b))), DropByte(Entry(k, b)))
  {
    hide Roll, Xor, Lowest, DropByte;
    var x := Entry(k, b);
    RollLast(k + 1, b as bv64);
    RollSplit(x);
    assert Rolls(1, Lowest(x) as bv64) == Rolls(0, Roll(Lowest(x) as bv64));
  }

  // ----- slices

  /** The bytes of a word, lowest first, looked up in tables n - 1, n - 2, ... 0. */
  function Slices(n: nat, x: bv64): bv64 {
    if n == 0 then x else Xor(Entry(n - 1, Lowest(x)), Slices(n - 1, DropByte(x)))
  }

  lemma {:induction false} RollsAreSlices(n: nat, x: bv64)
    ensures Rolls(n, x) == Slices(n, x)
  {
    hide Roll, Xor, Lowest, DropByte;
    if n > 0 {
      RollSplit(x);
      RollsXor(n - 1, Roll(Lowest(x) as bv64), DropByte(x));
      RollsAreSlices(n - 1, DropByte(x));
    }
  }

  function Raise(w: bv64): bv64 {
    w << 8
  }

  function Prepend(b: Byte, w: bv64): bv64 {
    (b as bv64) | Raise(w)
  }

  /** The word a little-endian machine loads from the first bytes of s. */
  function Word(s: seq<Byte>): bv64 {
    if s == [] then 0 else Prepend(s[0], Word(s[1..]))
  }

  /** w has at most n bytes. */
  predicate Fits(w: bv64, n: nat)
    decreases n
  {
    if n == 0 then w == 0 else Fits(DropByte(w), n - 1)
  }

  lemma {:induction false} FitsMore(w: bv64, n: nat)
    requires Fits(w, n)
    ensures Fits(w, n + 1)
    decreases n
  {
    hide DropByte;
    if n == 0 {
      DropZero();
    } else {
      FitsMore(DropByte(w), n - 1);
    }
  }

  lemma DropZero()
    ensures DropByte(0) == 0
  {
  }

  lemma {:induction false} FitsSeven(w: bv64, n: nat)
    requires Fits(w, n) && n <= 7
    ensures Fits(w, 7)
    decreases 7 - n
  {
    if n < 7 {
      FitsMore(w, n);
      FitsSeven(w, n + 1);
    }
  }

  predicate TopByteClear(w: bv64) {
    w & 0xff00000000000000 == 0
  }

  lemma SevenDrops(w: bv64)
    requires DropByte(DropByte(DropByte(DropByte(DropByte(DropByte(DropByte(w))))))) == 0
    ensures TopByteClear(w)
  {
  }

  lemma SevenFit(w: bv64)
    requires Fits(w, 7)
    ensures TopByteClear(w)
  {
    hide DropByte, TopByteClear;
    var d2 := DropByte(DropByte(w));
    var d4 := DropByte(DropByte(d2));
    var d6 := DropByte(DropByte(d4));
    assert Fits(d2, 5);
    assert Fits(d4, 3);
    assert Fits(d6, 1);
    SevenDrops(w);
  }

  lemma PrependByte(b: Byte, w: bv64)
    requires TopByteClear(w)
    ensures DropByte(Prepend(b, w)) == w && Prepend(b, w) == Xor(b as bv64, Raise(w))
    ensures Clear(Raise(w)) && DropByte(Raise(w)) == w
  {
    hide *;
    DropPrepended(b, w);
    PrependIsXor(b, w);
    RaiseClears(w);
    DropRaised(w);
  }

  lemma DropPrepended(b: Byte, w: bv64)
    requires TopByteClear(w)
    ensures DropByte(Prepend(b, w)) == w
  {
  }

  lemma PrependIsXor(b: Byte, w: bv64)
    ensures Prepend(b, w) == Xor(b as bv64, Raise(w))
  {
  }

  lemma RaiseClears(w: bv64)
    ensures Clear(Raise(w))
  {
  }

  lemma DropRaised(w: bv64)
    requires TopByteClear(w)
    ensures DropByte(Raise(w)) == w
  {
  }

  lemma {:induction false} WordFits(s: seq<Byte>)
    requires |s| <= 8
    ensures Fits(Word(s), |s|)
    ensures s != [] ==> TopByteClear(Word(s[1..]))
  {
    hide DropByte, Prepend, TopByteClear;
    if s != [] {
      WordFits(s[1..]);
      FitsSeven(Word(s[1..]), |s| - 1);
      SevenFit(Word(s[1..]));
      PrependByte(s[0], Word(s[1..]));
    }
  }

  /** Adding a whole word and rolling it through is the same as its bytes one by one. */
  lemma {:induction false} CrcOfWord(crc: bv64, s: seq<Byte>)
    requires |s| <= 8
    ensures Crc(crc, s) == Rolls(|s|, Xor(crc, Word(s)))
    decreases |s|
  {
    hide LowByte, Roll, Xor, Clear, DropByte, Raise, Prepend, TopByteClear, Fits;
    if s == [] {
      XorZero(crc);
    } else {
      var b, w := s[0] as bv64, Word(s[1..]);
      WordFits(s);
      PrependByte(s[0], w);
      InputByte(crc, s[0]);
      XorAssoc(crc, b, Raise(w));
      RollXor(Xor(crc, b), Raise(w));
      RollClear(Raise(w));
      CrcOfWord(LowByte(crc, s[0]), s[1..]);
    }
  }

  /** The slice-by-8 step. */
  lemma EightAtOnce(crc: bv64, s: seq<Byte>)
    requires |s| == 8
    ensures Crc(crc, s) == Slices(8, Xor(crc, Word(s)))
  {
    hide *;
    CrcOfWord(crc, s);
    RollsAreSlices(8, Xor(crc, Word(s)));
  }

  /** The byte-at-a-time step. */
  lemma OneAtATime(crc: bv64, b: Byte)
    ensures LowByte(crc, b) == Xor(Entry(0, Lowest(Xor(crc, b as bv64))), DropByte(crc))
  {
    hide LowBits, Zeros, Xor, Lowest, DropByte;
    var x := Xor(crc, b as bv64);
    InputByte(crc, b);
    RollSplit(x);
    assert Rolls(1, Lowest(x) as bv64) == Rolls(0, Roll(Lowest(x) as bv64));
    DropInput(crc, b);
  }

  lemma DropInput(crc: bv64, b: Byte)
    ensures DropByte(Xor(crc, b as bv64)) == DropByte(crc)
  {
  }

  // ----- the routines of crcspeed.c

  ghost predicate FirstRowDone(t: array2<bv64>, n: nat)
    requires t.Length0 == 8 && t.Length1 == 256
    reads t
  {
    forall b: Byte :: b as int < n ==> t[0, b as int] == Entry(0, b)
  }

  ghost predicate IsTable(t: array2<bv64>)
    reads t
  {
    t.Length0 == 8 && t.Length1 == 256 && forall k: nat, b: Byte :: k < 8 ==> t[k, b as int] == Entry(k, b)
  }

  function Successor(v: Byte): Byte {
    v + 1
  }

  lemma NextIndex(v: Byte)
    ensures v as int < 255 ==> Successor(v) as int == v as int + 1
  {
    if v as int < 255 {
      assert v < 255;
    }
  }

  lemma SameIndex(a: Byte, b: Byte)
    requires a as int == b as int
    ensures a == b
  {
    assert (a as int) as Byte == a && (b as int) as Byte == b;
  }

  /** The first loop of the generator: the CRCs of the single bytes. */
  method InitFirstRow(t: array2<bv64>)
    requires t.Length0 == 8 && t.Length1 == 256
    modifies t
    ensures FirstRowDone(t, 256)
  {
    hide Entry, Successor, Crc, Mirror;
    var v: Byte := 0;  // n as an unsigned char
    for n := 0 to 256
      invariant FirstRowDone(t, n) && (n < 256 ==> v as int == n)
    {
      var crc := BitByBit(0, [v]);
      FirstEntry(v);
      t[0, n] := crc;
      forall b: Byte | b as int < n + 1 ensures t[0, b as int] == Entry(0, b) {
        if b as int == n {
          SameIndex(b, v);
        }
      }
      NextIndex(v);
      v := Successor(v);
    }
  }

  /** crcspeed64little_init with _crc64. */
  method InitLittle(t: array2<bv64>)
    requires t.Length0 == 8 && t.Length1 == 256
    modifies t
    ensures IsTable(t)
  {
    hide Entry, Successor;
    InitFirstRow(t);
    var v: Byte := 0;
    for n := 0 to 256
      invariant FirstRowDone(t, 256) && (n < 256 ==> v as int == n)
      invariant forall k: nat, b: Byte :: k < 8 && b as int < n ==> t[k, b as int] == Entry(k, b)
    {
      InitColumn(t, n, v);
      forall k: nat, b: Byte | k < 8 && b as int < n + 1 ensures t[k, b as int] == Entry(k, b) {
        if b as int == n {
          SameIndex(b, v);
        }
      }
      NextIndex(v);
      v := Successor(v);
    }
  }

  /** The inner loop of the generator: column n of tables 1 to 7. */
  method InitColumn(t: array2<bv64>, n: nat, ghost v: Byte)
    requires t.Length0 == 8 && t.Length1 == 256 && n < 256 && v as int == n && FirstRowDone(t, 256)
    modifies t
    ensures FirstRowDone(t, 256)
    ensures forall k: nat :: k < 8 ==> t[k, n] == Entry(k, v)
    ensures forall k: nat, j: nat :: k < 8 && j < 256 && j != n ==> t[k, j] == old(t[k, j])
  {
    hide Entry, Xor, DropByte, Lowest;
    var crc := t[0, n];
    assert crc == Entry(0, v);
    for k := 1 to 8
      invariant crc == Entry(k - 1, v)
      invariant FirstRowDone(t, 256)
      invariant forall j: nat :: j < k ==> t[j, n] == Entry(j, v)
      invariant forall i: nat, j: nat :: i < 8 && j < 256 && j != n ==> t[i, j] == old(t[i, j])
    {
      NextEntry(k - 1, v);
      crc := Xor(t[0, Lowest(crc) as int], DropByte(crc));
      t[k, n] := crc;
    }
  }

  /** x without its k lowest bytes. */
  function Shifted(x: bv64, k: nat): bv64
    decreases k
  {
    if k == 0 then x else DropByte(Shifted(x, k - 1))
  }

  /** The shifts as the fast loop writes them. */
  lemma ShiftedIs(x: bv64)
    ensures Shifted(x, 0) == x && Shifted(x, 1) == x >> 8 && Shifted(x, 2) == x >> 16 && Shifted(x, 3) == x >> 24
    ensures Shifted(x, 4) == x >> 32 && Shifted(x, 5) == x >> 40 && Shifted(x, 6) == x >> 48
    ensures Shifted(x, 7) == x >> 56
    ensures Shifted(x, 8) == 0
  {
    hide DropByte;
    Drops(x);
  }

  lemma Drops(x: bv64)
    ensures DropByte(x) == x >> 8 && DropByte(x >> 8) == x >> 16 && DropByte(x >> 16) == x >> 24
    ensures DropByte(x >> 24) == x >> 32 && DropByte(x >> 32) == x >> 40 && DropByte(x >> 40) == x >> 48
    ensures DropByte(x >> 48) == x >> 56 && DropByte(x >> 56) == 0
  {
  }

  /** Byte k of a word, from the lowest. */
  function ByteOf(x: bv64, k: nat): Byte {
    Lowest(Shifted(x, k))
  }

  lemma BytesOf(x: bv64)
    ensures var d1 := DropByte(x); var d2 := DropByte(d1); var d3 := DropByte(d2); var d4 := DropByte(d3);
            var d5 := DropByte(d4); var d6 := DropByte(d5); var d7 := DropByte(d6);
            && Lowest(x) == ByteOf(x, 0) && Lowest(d1) == ByteOf(x, 1) && Lowest(d2) == ByteOf(x, 2)
            && Lowest(d3) == ByteOf(x, 3) && Lowest(d4) == ByteOf(x, 4) && Lowest(d5) == ByteOf(x, 5)
            && Lowest(d6) == ByteOf(x, 6) && Lowest(d7) == ByteOf(x, 7) && DropByte(d7) == 0
  {
    hide Lowest, DropByte;
    assert Shifted(x, 2) == DropByte(DropByte(x));
    assert Shifted(x, 4) == DropByte(DropByte(Shifted(x, 2)));
    assert Shifted(x, 6) == DropByte(DropByte(Shifted(x, 4)));
    assert Shifted(x, 8) == 0 by { ShiftedIs(x); }
  }

  lemma XorEight(a: bv64, b: bv64, c: bv64, d: bv64, e: bv64, f: bv64, g: bv64, h: bv64)
    ensures Xor(a, Xor(b, Xor(c, Xor(d, Xor(e, Xor(f, Xor(g, Xor(h, 0))))))))
            == Xor(Xor(Xor(Xor(Xor(Xor(Xor(a, b), c), d), e), f), g), h)
  {
    hide Xor;
    XorZero(h);
    var ab := Xor(a, b);
    var abc := Xor(ab, c);
    var abcd := Xor(abc, d);
    var abcde := Xor(abcd, e);
    XorAssoc(abcde, f, Xor(g, h));
    XorAssoc(Xor(abcde, f), g, h);
    XorAssoc(abcd, e, Xor(f, Xor(g, h)));
    XorAssoc(abc, d, Xor(e, Xor(f, Xor(g, h))));
    XorAssoc(ab, c, Xor(d, Xor(e, Xor(f, Xor(g, h)))));
    XorAssoc(a, b, Xor(c, Xor(d, Xor(e, Xor(f, Xor(g, h))))));
  }

  /** The eight lookups of the fast loop. */
  function Lookups(e0: bv64, e1: bv64, e2: bv64, e3: bv64, e4: bv64, e5: bv64, e6: bv64, e7: bv64): bv64 {
    Xor(Xor(Xor(Xor(Xor(Xor(Xor(e0, e1), e2), e3), e4), e5), e6), e7)
  }

  lemma EightLookups(x: bv64)
    ensures Slices(8, x)
            == Lookups(Entry(7, ByteOf(x, 0)), Entry(6, ByteOf(x, 1)), Entry(5, ByteOf(x, 2)), Entry(4, ByteOf(x, 3)),
                       Entry(3, ByteOf(x, 4)), Entry(2, ByteOf(x, 5)), Entry(1, ByteOf(x, 6)), Entry(0, ByteOf(x, 7)))
  {
    hide Entry, Lowest, DropByte, Xor, ByteOf, Slices;
    BytesOf(x);
    var d1 := DropByte(x);
    var d2 := DropByte(d1);
    var d3 := DropByte(d2);
    var d4 := DropByte(d3);
    var d5 := DropByte(d4);
    var d6 := DropByte(d5);
    var d7 := DropByte(d6);
    OneSlice(8, x);
    OneSlice(7, d1);
    OneSlice(6, d2);
    OneSlice(5, d3);
    OneSlice(4, d4);
    OneSlice(3, d5);
    OneSlice(2, d6);
    OneSlice(1, d7);
    NoSlice(0);
    XorEight(Entry(7, ByteOf(x, 0)), Entry(6, ByteOf(x, 1)), Entry(5, ByteOf(x, 2)), Entry(4, ByteOf(x, 3)),
             Entry(3, ByteOf(x, 4)), Entry(2, ByteOf(x, 5)), Entry(1, ByteOf(x, 6)), Entry(0, ByteOf(x, 7)));
  }

  lemma OneSlice(n: nat, x: bv64)
    requires n > 0
    ensures Slices(n, x) == Xor(Entry(n - 1, Lowest(x)), Slices(n - 1, DropByte(x)))
  {
  }

  lemma NoSlice(x: bv64)
    ensures Slices(0, x) == x
  {
  }

  /** The load of eight bytes on a little-endian machine. */
  function LoadLittle(s: seq<Byte>): bv64
    requires |s| == 8
  {
    (s[0] as bv64) | ((s[1] as bv64) << 8) | ((s[2] as bv64) << 16) | ((s[3] as bv64) << 24)
    | ((s[4] as bv64) << 32) | ((s[5] as bv64) << 40) | ((s[6] as bv64) << 48) | ((s[7] as bv64) << 56)
  }

  lemma WordStep(s: seq<Byte>, i: nat)
    requires i < |s|
    ensures Word(s[i..]) == Prepend(s[i], Word(s[i + 1..]))
  {
    hide Prepend;
    assert s[i..][1..] == s[i + 1..];
  }

  lemma WordEnd(s: seq<Byte>)
    ensures Word(s[|s|..]) == 0
  {
  }

  lemma LoadIsWord(s: seq<Byte>)
    requires |s| == 8
    ensures LoadLittle(s) == Word(s)
  {
    hide Prepend, Word;
    assert s[0..] == s;
    WordStep(s, 0);
    WordStep(s, 1);
    WordStep(s, 2);
    WordStep(s, 3);
    WordStep(s, 4);
    WordStep(s, 5);
    WordStep(s, 6);
    WordStep(s, 7);
    WordEnd(s);
    PrependedAll(s[0], s[1], s[2], s[3], s[4], s[5], s[6], s[7]);
  }

  lemma PrependedAll(b0: Byte, b1: Byte, b2: Byte, b3: Byte, b4: Byte, b5: Byte, b6: Byte, b7: Byte)
    ensures var w4 := Prepend(b4, Prepend(b5, Prepend(b6, Prepend(b7, 0))));
            Prepend(b0, Prepend(b1, Prepend(b2, Prepend(b3, w4))))
              == (b0 as bv64) | ((b1 as bv64) << 8) | ((b2 as bv64) << 16) | ((b3 as bv64) << 24)
                 | ((b4 as bv64) << 32) | ((b5 as bv64) << 40) | ((b6 as bv64) << 48) | ((b7 as bv64) << 56)
  {
  }

  /** crcspeed64little, on a buffer that starts at address addr. */
  method CrcSpeedLittle(t: array2<bv64>, start: bv64, s: seq<Byte>, addr: nat) returns (crc: bv64)
    requires IsTable(t)
    ensures crc == Crc(start, s)
  {
    hide Entry, Crc, Lowest, DropByte, Xor, ByteOf, LoadLittle, Lookups, Slices, Word;
    crc := start;
    var next := 0;
    assert s[0..] == s;
    while next < |s| && (addr + next) % 8 != 0
      invariant next <= |s| && Crc(crc, s[next..]) == Crc(start, s)
    {
      CrcByte(crc, s, next);
      crc := Xor(t[0, Lowest(Xor(crc, s[next] as bv64)) as int], DropByte(crc));
      next := next + 1;
    }
    while |s| - next >= 8
      invariant next <= |s| && Crc(crc, s[next..]) == Crc(start, s)
    {
      CrcEight(crc, s, next);
      var x := Xor(crc, LoadLittle(s[next..next + 8]));
      crc := Lookups(t[7, ByteOf(x, 0) as int], t[6, ByteOf(x, 1) as int],
                     t[5, ByteOf(x, 2) as int], t[4, ByteOf(x, 3) as int],
                     t[3, ByteOf(x, 4) as int], t[2, ByteOf(x, 5) as int],
                     t[1, ByteOf(x, 6) as int], t[0, ByteOf(x, 7) as int]);
      next := next + 8;
    }
    while next < |s|
      invariant next <= |s| && Crc(crc, s[next..]) == Crc(start, s)
    {
      CrcByte(crc, s, next);
      crc := Xor(t[0, Lowest(Xor(crc, s[next] as bv64)) as int], DropByte(crc));
      next := next + 1;
    }
    CrcEnd(crc, s);
  }

  lemma CrcEnd(crc: bv64, s: seq<Byte>)
    ensures Crc(crc, s[|s|..]) == crc
  {
  }

  lemma CrcByte(crc: bv64, s: seq<Byte>, i: nat)
    requires i < |s|
    ensures Crc(crc, s[i..]) == Crc(Xor(Entry(0, Lowest(Xor(crc, s[i] as bv64))), DropByte(crc)), s[i + 1..])
  {
    hide Entry, LowByte, Lowest, DropByte, Xor;
    assert s[i..][1..] == s[i + 1..];
    OneAtATime(crc, s[i]);
  }

  lemma CrcEight(crc: bv64, s: seq<Byte>, i: nat)
    requires i + 8 <= |s|
    ensures var x := Xor(crc, LoadLittle(s[i..i + 8]));
            Crc(crc, s[i..])
            == Crc(Lookups(Entry(7, ByteOf(x, 0)), Entry(6, ByteOf(x, 1)), Entry(5, ByteOf(x, 2)),
                           Entry(4, ByteOf(x, 3)), Entry(3, ByteOf(x, 4)), Entry(2, ByteOf(x, 5)),
                           Entry(1, ByteOf(x, 6)), Entry(0, ByteOf(x, 7))), s[i + 8..])
  {
    hide *;
    var word := s[i..i + 8];
    LoadIsWord(word);
    EightAtOnce(crc, word);
    EightLookups(Xor(crc, Word(word)));
    assert s[i..] == word + s[i + 8..];
    CrcAppend(crc, word, s[i + 8..]);
  }

  // ----- big-endian machines

  lemma RevXor(a: bv64, b: bv64)
    ensures Rev8(Xor(a, b)) == Xor(Rev8(a), Rev8(b))
  {
  }

  lemma RevRev(a: bv64)
    ensures Rev8(Rev8(a)) == a
  {
  }

  lemma RevDrop(a: bv64)
    ensures Rev8(DropByte(a)) == Raise(Rev8(a))
  {
    hide Rev8;
    RevShift(a);
  }

  lemma RevShift(a: bv64)
    ensures Rev8(a >> 8) == Rev8(a) << 8
  {
  }

  /** Byte k of the reversed word is byte 7 - k of the word. */
  lemma RevByte(a: bv64, k: nat)
    requires k < 8
    ensures ByteOf(Rev8(a), k) == ByteOf(a, 7 - k)
  {
    hide Rev8, Lowest, Shifted;
    ShiftedIs(a);
    ShiftedIs(Rev8(a));
    RevBytes(a);
  }

  lemma RevBytes(a: bv64)
    ensures Lowest(Rev8(a)) == Lowest(a >> 56) && Lowest(Rev8(a) >> 8) == Lowest(a >> 48)
    ensures Lowest(Rev8(a) >> 16) == Lowest(a >> 40) && Lowest(Rev8(a) >> 24) == Lowest(a >> 32)
    ensures Lowest(Rev8(a) >> 32) == Lowest(a >> 24) && Lowest(Rev8(a) >> 40) == Lowest(a >> 16)
    ensures Lowest(Rev8(a) >> 48) == Lowest(a >> 8) && Lowest(Rev8(a) >> 56) == Lowest(a)
  {
  }

  lemma RevIndex(c: bv64, b: Byte)
    ensures ByteOf(Rev8(c), 7) ^ b == Lowest(Xor(c, b as bv64))
  {
    hide Rev8;
    RevByte(c, 7);
    assert Shifted(c, 0) == c;
  }

  ghost predicate IsBigTable(t: array2<bv64>)
    reads t
  {
    t.Length0 == 8 && t.Length1 == 256 && forall k: nat, b: Byte :: k < 8 ==> t[k, b as int] == Rev8(Entry(k, b))
  }

  /** crcspeed64big_init with _crc64. */
  method InitBig(t: array2<bv64>)
    requires t.Length0 == 8 && t.Length1 == 256
    modifies t
    ensures IsBigTable(t)
  {
    hide Entry, Rev8;
    InitLittle(t);
    label filled:
    for k := 0 to 8
      invariant forall i: nat, j: nat :: i < 8 && j < 256 ==>
                  t[i, j] == if i < k then Rev8(old@filled(t[i, j])) else old@filled(t[i, j])
    {
      ReverseRow(t, k);
    }
  }

  method ReverseRow(t: array2<bv64>, k: nat)
    requires t.Length0 == 8 && t.Length1 == 256 && k < 8
    modifies t
    ensures forall i: nat, j: nat :: i < 8 && j < 256 ==>
              t[i, j] == if i == k then Rev8(old(t[i, j])) else old(t[i, j])
  {
    hide Rev8;
    for n := 0 to 256
      invariant forall i: nat, j: nat :: i < 8 && j < 256 ==>
                  t[i, j] == if i == k && j < n then Rev8(old(t[i, j])) else old(t[i, j])
    {
      t[k, n] := Rev8(t[k, n]);
    }
  }

  /** The load of eight bytes on a big-endian machine. */
  function LoadBig(s: seq<Byte>): bv64
    requires |s| == 8
  {
    ((s[0] as bv64) << 56) | ((s[1] as bv64) << 48) | ((s[2] as bv64) << 40) | ((s[3] as bv64) << 32)
    | ((s[4] as bv64) << 24) | ((s[5] as bv64) << 16) | ((s[6] as bv64) << 8) | (s[7] as bv64)
  }

  lemma RevLoad(s: seq<Byte>)
    requires |s| == 8
    ensures LoadBig(s) == Rev8(LoadLittle(s))
  {
  }

  lemma LookupsReversed(a: bv64, b: bv64, c: bv64, d: bv64, e: bv64, f: bv64, g: bv64, h: bv64)
    ensures Lookups(h, g, f, e, d, c, b, a) == Lookups(a, b, c, d, e, f, g, h)
  {
    hide Xor;
    XorEight(a, b, c, d, e, f, g, h);
    XorZero(h);
    var hg := Xor(h, g);
    var hgf := Xor(hg, f);
    var hgfe := Xor(hgf, e);
    var hgfed := Xor(hgfe, d);
    var hgfedc := Xor(hgfed, c);
    XorComm(h, g);
    XorComm(hg, f);
    XorComm(hgf, e);
    XorComm(hgfe, d);
    XorComm(hgfed, c);
    XorComm(hgfedc, b);
    XorComm(Xor(hgfedc, b), a);
  }

  lemma RevLookups(a: bv64, b: bv64, c: bv64, d: bv64, e: bv64, f: bv64, g: bv64, h: bv64)
    ensures Lookups(Rev8(a), Rev8(b), Rev8(c), Rev8(d), Rev8(e), Rev8(f), Rev8(g), Rev8(h))
            == Rev8(Lookups(a, b, c, d, e, f, g, h))
  {
    hide Xor, Rev8;
    var ab := Xor(a, b);
    var abc := Xor(ab, c);
    var abcd := Xor(abc, d);
    var abcde := Xor(abcd, e);
    var abcdef := Xor(abcde, f);
    RevXor(a, b);
    RevXor(ab, c);
    RevXor(abc, d);
    RevXor(abcd, e);
    RevXor(abcde, f);
    RevXor(abcdef, g);
    RevXor(Xor(abcdef, g), h);
  }

  /** The eight lookups of the big-endian loop are the reversal of those of the little-endian one. */
  lemma BigLookups(x: bv64)
    ensures var y := Rev8(x);
            Lookups(Rev8(Entry(0, ByteOf(y, 0))), Rev8(Entry(1, ByteOf(y, 1))), Rev8(Entry(2, ByteOf(y, 2))),
                    Rev8(Entry(3, ByteOf(y, 3))), Rev8(Entry(4, ByteOf(y, 4))), Rev8(Entry(5, ByteOf(y, 5))),
                    Rev8(Entry(6, ByteOf(y, 6))), Rev8(Entry(7, ByteOf(y, 7))))
            == Rev8(Lookups(Entry(7, ByteOf(x, 0)), Entry(6, ByteOf(x, 1)), Entry(5, ByteOf(x, 2)),
                            Entry(4, ByteOf(x, 3)), Entry(3, ByteOf(x, 4)), Entry(2, ByteOf(x, 5)),
                            Entry(1, ByteOf(x, 6)), Entry(0, ByteOf(x, 7))))
  {
    hide *;
    RevByte(x, 0);
    RevByte(x, 1);
    RevByte(x, 2);
    RevByte(x, 3);
    RevByte(x, 4);
    RevByte(x, 5);
    RevByte(x, 6);
    RevByte(x, 7);
    RevLookups(Entry(0, ByteOf(x, 7)), Entry(1, ByteOf(x, 6)), Entry(2, ByteOf(x, 5)), Entry(3, ByteOf(x, 4)),
               Entry(4, ByteOf(x, 3)), Entry(5, ByteOf(x, 2)), Entry(6, ByteOf(x, 1)), Entry(7, ByteOf(x, 0)));
    LookupsReversed(Entry(7, ByteOf(x, 0)), Entry(6, ByteOf(x, 1)), Entry(5, ByteOf(x, 2)), Entry(4, ByteOf(x, 3)),
                    Entry(3, ByteOf(x, 4)), Entry(2, ByteOf(x, 5)), Entry(1, ByteOf(x, 6)), Entry(0, ByteOf(x, 7)));
  }

  lemma BigByte(c: bv64, b: Byte)
    ensures Xor(Rev8(Entry(0, ByteOf(Rev8(c), 7) ^ b)), Raise(Rev8(c)))
            == Rev8(Xor(Entry(0, Lowest(Xor(c, b as bv64))), DropByte(c)))
  {
    hide *;
    RevIndex(c, b);
    RevDrop(c);
    RevXor(Entry(0, Lowest(Xor(c, b as bv64))), DropByte(c));
  }

  lemma BigWord(c: bv64, s: seq<Byte>)
    requires |s| == 8
    ensures Xor(Rev8(c), LoadBig(s)) == Rev8(Xor(c, LoadLittle(s)))
  {
    hide *;
    RevLoad(s);
    RevXor(c, LoadLittle(s));
  }

  /** One byte through the reversed first table. */
  function BigByteStep(t: array2<bv64>, crc: bv64, b: Byte, ghost c: bv64): (r: bv64)
    requires IsBigTable(t) && crc == Rev8(c)
    reads t
    ensures r == Rev8(Xor(Entry(0, Lowest(Xor(c, b as bv64))), DropByte(c)))
  {
    hide Entry, Rev8, Xor, Lowest, DropByte, Raise, ByteOf;
    BigByte(c, b);
    Xor(t[0, (ByteOf(crc, 7) ^ b) as int], Raise(crc))
  }

  /** Eight bytes through the reversed tables. */
  function BigWordStep(t: array2<bv64>, crc: bv64, word: seq<Byte>, ghost c: bv64): (r: bv64)
    requires IsBigTable(t) && crc == Rev8(c) && |word| == 8
    reads t
    ensures var x := Xor(c, LoadLittle(word));
            r == Rev8(Lookups(Entry(7, ByteOf(x, 0)), Entry(6, ByteOf(x, 1)), Entry(5, ByteOf(x, 2)),
                              Entry(4, ByteOf(x, 3)), Entry(3, ByteOf(x, 4)), Entry(2, ByteOf(x, 5)),
                              Entry(1, ByteOf(x, 6)), Entry(0, ByteOf(x, 7))))
  {
    hide Entry, Rev8, Xor, ByteOf, Lookups, LoadBig, LoadLittle;
    BigWord(c, word);
    BigLookups(Xor(c, LoadLittle(word)));
    var y := Xor(crc, LoadBig(word));
    Lookups(t[0, ByteOf(y, 0) as int], t[1, ByteOf(y, 1) as int], t[2, ByteOf(y, 2) as int],
            t[3, ByteOf(y, 3) as int], t[4, ByteOf(y, 4) as int], t[5, ByteOf(y, 5) as int],
            t[6, ByteOf(y, 6) as int], t[7, ByteOf(y, 7) as int])
  }

  /** crcspeed64big: the register holds the reversal of the little-endian one throughout. */
  method CrcSpeedBig(t: array2<bv64>, start: bv64, s: seq<Byte>, addr: nat) returns (r: bv64)
    requires IsBigTable(t)
    ensures r == Crc(start, s)
  {
    hide *;
    var crc := Rev8(start);
    var next := 0;
    ghost var c := start;
    assert s[0..] == s;
    while next < |s| && (addr + next) % 8 != 0
      invariant next <= |s| && crc == Rev8(c) && Crc(c, s[next..]) == Crc(start, s)
    {
      CrcByte(c, s, next);
      crc := BigByteStep(t, crc, s[next], c);
      c := Xor(Entry(0, Lowest(Xor(c, s[next] as bv64))), DropByte(c));
      next := next + 1;
    }
    while |s| - next >= 8
      invariant next <= |s| && crc == Rev8(c) && Crc(c, s[next..]) == Crc(start, s)
    {
      CrcEight(c, s, next);
      ghost var x := Xor(c, LoadLittle(s[next..next + 8]));
      crc := BigWordStep(t, crc, s[next..next + 8], c);
      c := Lookups(Entry(7, ByteOf(x, 0)), Entry(6, ByteOf(x, 1)), Entry(5, ByteOf(x, 2)), Entry(4, ByteOf(x, 3)),
                   Entry(3, ByteOf(x, 4)), Entry(2, ByteOf(x, 5)), Entry(1, ByteOf(x, 6)), Entry(0, ByteOf(x, 7)));
      next := next + 8;
    }
    while next < |s|
      invariant next <= |s| && crc == Rev8(c) && Crc(c, s[next..]) == Crc(start, s)
    {
      CrcByte(c, s, next);
      crc := BigByteStep(t, crc, s[next], c);
      c := Xor(Entry(0, Lowest(Xor(c, s[next] as bv64))), DropByte(c));
      next := next + 1;
    }
    CrcEnd(c, s);
    RevRev(c);
    r := Rev8(crc);
  }

  /** crc64 on the tables crc64_init generates, on either kind of machine and at any alignment, is _crc64. */
  method CrcIsBitByBit(s: seq<Byte>, addr: nat, little: bool) returns (fast: bv64, slow: bv64)
    ensures fast == slow == Crc(0, s)
  {
    var t := new bv64[8, 256];
    if little {
      InitLittle(t);
      fast := CrcSpeedLittle(t, 0, s, addr);
    } else {
      InitBig(t);
      fast := CrcSpeedBig(t, 0, s, addr);
    }
    slow := BitByBit(0, s);
  }
}
