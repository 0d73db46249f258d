/**
 redisPopcount: the number of set bits of a string, 28 bytes at a time with the bits of
 seven words summed in parallel, equals the plain bit sum at every length and alignment.
 */
module Popcount {
  import opened Prelude

  // ----- the plain sum

  function BitValue(b: bool): nat {
    if b then 1 else 0
  }

  /** An entry of the table bitsinbyte. */
  function BitsInByte(b: Byte): nat {
    BitValue(b & 1 != 0) + BitValue(b & 2 != 0) + BitValue(b & 4 != 0) + BitValue(b & 8 != 0)
    + BitValue(b & 16 != 0) + BitValue(b & 32 != 0) + BitValue(b & 64 != 0) + BitValue(b & 128 != 0)
  }

  /** The number of set bits of a string. */
  function BitSum(s: seq<Byte>): nat {
    if s == [] then 0 else BitSum(s[..|s| - 1]) + BitsInByte(s[|s| - 1])
  }

  lemma BitSumSnoc(s: seq<Byte>, i: nat)
    requires i < |s|
    ensures BitSum(s[..i + 1]) == BitSum(s[..i]) + BitsInByte(s[i])
  {
    hide BitsInByte;
    assert s[..i + 1][..i] == s[..i];
  }

  lemma {:induction false} BitSumAppend(a: seq<Byte>, b: seq<Byte>)
    ensures BitSum(a + b) == BitSum(a) + BitSum(b)
    decreases |b|
  {
    hide BitsInByte;
    if b == [] {
      assert a + b == a;
    } else {
      assert (a + b)[..|a + b| - 1] == a + b[..|b| - 1];
      BitSumAppend(a, b[..|b| - 1]);
    }
  }

  // ----- one byte: its bits summed in parallel

  function PairsOf(b: Byte): Byte {
    b - ((b >> 1) & 0x55)
  }

  function NibblesOf(b: Byte): Byte {
    (b & 0x33) + ((b >> 2) & 0x33)
  }

  function TotalOf(b: Byte): Byte {
    (b + (b >> 4)) & 0x0F
  }

  function Total(b: Byte): Byte {
    TotalOf(NibblesOf(PairsOf(b)))
  }

  function Val(b: Byte): nat {
    b as int
  }

  function Sum(a: Byte, b: Byte): Byte {
    a + b
  }

  /** The parallel sum of a byte is the sum of its bits. */
  lemma TotalCounts(b: Byte)
    ensures Val(Total(b)) == BitsInByte(b)
  {
  }

  function More(b: Byte): Byte {
    b + 1
  }

  function Less(b: Byte): Byte {
    b - 1
  }

  lemma Successor(b: Byte)
    requires b < 255
    ensures Val(More(b)) == Val(b) + 1
  {
  }

  lemma Predecessor(b: Byte)
    requires b > 0
    ensures Val(Less(b)) == Val(b) - 1
  {
  }

  lemma AddNothing(a: Byte)
    ensures Sum(a, 0) == a && Val(0) == 0
  {
  }

  lemma SumStep(a: Byte, b: Byte)
    requires a < 192 && 0 < b < 64
    ensures Sum(a, Less(b)) < 255 && Sum(a, b) == More(Sum(a, Less(b))) && Less(b) < 64
  {
  }

  lemma {:induction false} SumOfBytes(a: Byte, b: Byte)
    requires a < 192 && b < 64
    ensures Val(Sum(a, b)) == Val(a) + Val(b)
    decreases Val(b)
  {
    hide *;
    if b == 0 {
      AddNothing(a);
    } else {
      SumStep(a, b);
      Predecessor(b);
      SumOfBytes(a, Less(b));
      Successor(Sum(a, Less(b)));
    }
  }

  lemma Below(a: Byte)
    ensures Val(a) < 192 ==> a < 192
    ensures Val(a) < 64 ==> a < 64
    ensures Val(a) < 128 ==> a < 128
  {
  }

  /** Bytes add as numbers as long as the sum fits. */
  lemma SumCounts(a: Byte, b: Byte)
    requires Val(a) < 192 && Val(b) < 64
    ensures Val(Sum(a, b)) == Val(a) + Val(b)
  {
    hide Val, Sum;
    Below(a);
    Below(b);
    SumOfBytes(a, b);
  }

  // ----- four bytes in a word

  function Load(b0: Byte, b1: Byte, b2: Byte, b3: Byte): bv32 {
    (b0 as bv32) | ((b1 as bv32) << 8) | ((b2 as bv32) << 16) | ((b3 as bv32) << 24)
  }

  function Add(x: bv32, y: bv32): bv32 {
    x + y
  }

  /** The three steps on a word, as the program writes them. */
  function Pairs(x: bv32): bv32 {
    x - ((x >> 1) & 0x55555555)
  }

  function Nibbles(x: bv32): bv32 {
    (x & 0x33333333) + ((x >> 2) & 0x33333333)
  }

  function Bytes(x: bv32): bv32 {
    (x + (x >> 4)) & 0x0F0F0F0F
  }

  function Swar(x: bv32): bv32 {
    Bytes(Nibbles(Pairs(x)))
  }

  /** The first step written with bit operations alone: no borrow leaves a pair. */
  function PairBits(x: bv32): bv32 {
    ((x & 0x55555555) ^ ((x >> 1) & 0x55555555)) | (((x & 0x55555555) & ((x >> 1) & 0x55555555)) << 1)
  }

  lemma PairsAreBits(x: bv32)
    ensures Pairs(x) == PairBits(x)
  {
    PairsRaw(x);
  }

  lemma PairsRaw(x: bv32)
    ensures x - ((x >> 1) & 0x55555555)
         == ((x & 0x55555555) ^ ((x >> 1) & 0x55555555)) | (((x & 0x55555555) & ((x >> 1) & 0x55555555)) << 1)
  {
  }

  function PairBitsOf(b: Byte): Byte {
    ((b & 0x55) ^ ((b >> 1) & 0x55)) | (((b & 0x55) & ((b >> 1) & 0x55)) << 1)
  }

  lemma ByteOfPairs(b: Byte)
    ensures PairsOf(b) == PairBitsOf(b)
  {
  }

  lemma PairBitsOfLoad(b0: Byte, b1: Byte, b2: Byte, b3: Byte)
    ensures PairBits(Load(b0, b1, b2, b3)) == Load(PairBitsOf(b0), PairBitsOf(b1), PairBitsOf(b2), PairBitsOf(b3))
  {
  }

  lemma PairsOfLoad(b0: Byte, b1: Byte, b2: Byte, b3: Byte)
    ensures Pairs(Load(b0, b1, b2, b3)) == Load(PairsOf(b0), PairsOf(b1), PairsOf(b2), PairsOf(b3))
  {
    hide *;
    PairsAreBits(Load(b0, b1, b2, b3));
    PairBitsOfLoad(b0, b1, b2, b3);
    ByteOfPairs(b0);
    ByteOfPairs(b1);
    ByteOfPairs(b2);
    ByteOfPairs(b3);
  }

  predicate Small(b: Byte) {
    b < 128
  }

  lemma AddBytes(a0: Byte, a1: Byte, a2: Byte, a3: Byte, c0: Byte, c1: Byte, c2: Byte, c3: Byte)
    requires a0 < 128 && a1 < 128 && a2 < 128 && a3 < 128 && c0 < 128 && c1 < 128 && c2 < 128 && c3 < 128
    ensures Load(a0, a1, a2, a3) + Load(c0, c1, c2, c3) == Load(a0 + c0, a1 + c1, a2 + c2, a3 + c3)
  {
  }

  /** Bytes below 128 add without carrying into each other. */
  lemma AddLoads(a0: Byte, a1: Byte, a2: Byte, a3: Byte, c0: Byte, c1: Byte, c2: Byte, c3: Byte)
    requires Small(a0) && Small(a1) && Small(a2) && Small(a3) && Small(c0) && Small(c1) && Small(c2) && Small(c3)
    ensures Add(Load(a0, a1, a2, a3), Load(c0, c1, c2, c3))
              == Load(Sum(a0, c0), Sum(a1, c1), Sum(a2, c2), Sum(a3, c3))
  {
    hide Load;
    AddBytes(a0, a1, a2, a3, c0, c1, c2, c3);
  }

  lemma MaskedNibbles(b0: Byte, b1: Byte, b2: Byte, b3: Byte)
    ensures Load(b0, b1, b2, b3) & 0x33333333 == Load(b0 & 0x33, b1 & 0x33, b2 & 0x33, b3 & 0x33)
    ensures (Load(b0, b1, b2, b3) >> 2) & 0x33333333
         == Load((b0 >> 2) & 0x33, (b1 >> 2) & 0x33, (b2 >> 2) & 0x33, (b3 >> 2) & 0x33)
  {
  }

  lemma MasksAreSmall(b: Byte)
    ensures Small(b & 0x33) && Small((b >> 2) & 0x33)
  {
  }

  lemma NibblesOfLoad(b0: Byte, b1: Byte, b2: Byte, b3: Byte)
    ensures Nibbles(Load(b0, b1, b2, b3)) == Load(NibblesOf(b0), NibblesOf(b1), NibblesOf(b2), NibblesOf(b3))
  {
    hide Load, Small;
    MaskedNibbles(b0, b1, b2, b3);
    MasksAreSmall(b0);
    MasksAreSmall(b1);
    MasksAreSmall(b2);
    MasksAreSmall(b3);
    AddLoads(b0 & 0x33, b1 & 0x33, b2 & 0x33, b3 & 0x33,
             (b0 >> 2) & 0x33, (b1 >> 2) & 0x33, (b2 >> 2) & 0x33, (b3 >> 2) & 0x33);
  }

  /** No nibble of the second step exceeds 7. */
  predicate LowNibbles(b: Byte) {
    b & 0x88 == 0
  }

  lemma NibblesAreLow(b: Byte)
    ensures LowNibbles(NibblesOf(PairsOf(b)))
  {
  }

  lemma BytesRaw(b0: Byte, b1: Byte, b2: Byte, b3: Byte)
    requires b0 & 0x88 == 0 && b1 & 0x88 == 0 && b2 & 0x88 == 0 && b3 & 0x88 == 0
    ensures (Load(b0, b1, b2, b3) + (Load(b0, b1, b2, b3) >> 4)) & 0x0F0F0F0F
         == Load((b0 + (b0 >> 4)) & 0x0F, (b1 + (b1 >> 4)) & 0x0F, (b2 + (b2 >> 4)) & 0x0F, (b3 + (b3 >> 4)) & 0x0F)
  {
  }

  lemma BytesOfLoad(b0: Byte, b1: Byte, b2: Byte, b3: Byte)
    requires LowNibbles(b0) && LowNibbles(b1) && LowNibbles(b2) && LowNibbles(b3)
    ensures Bytes(Load(b0, b1, b2, b3)) == Load(TotalOf(b0), TotalOf(b1), TotalOf(b2), TotalOf(b3))
  {
    hide Load;
    BytesRaw(b0, b1, b2, b3);
  }

  /** Each byte of the result counts the bits of its own byte. */
  lemma SwarOfLoad(b0: Byte, b1: Byte, b2: Byte, b3: Byte)
    ensures Swar(Load(b0, b1, b2, b3)) == Load(Total(b0), Total(b1), Total(b2), Total(b3))
  {
    hide Load, Pairs, Nibbles, Bytes, PairsOf, NibblesOf, TotalOf, LowNibbles;
    PairsOfLoad(b0, b1, b2, b3);
    NibblesOfLoad(PairsOf(b0), PairsOf(b1), PairsOf(b2), PairsOf(b3));
    NibblesAreLow(b0);
    NibblesAreLow(b1);
    NibblesAreLow(b2);
    NibblesAreLow(b3);
    BytesOfLoad(NibblesOf(PairsOf(b0)), NibblesOf(PairsOf(b1)), NibblesOf(PairsOf(b2)), NibblesOf(PairsOf(b3)));
  }

  // ----- the bytes of a word added up by a multiplication

  function Shift(x: bv32, n: nat): bv32 {
    if n == 1 then x << 8 else if n == 2 then x << 16 else x << 24
  }

  /** The multiplication of the program. */
  function Times(x: bv32): bv32 {
    x * 0x01010101
  }

  function Add4(x: bv32, a: bv32, b: bv32, c: bv32): bv32 {
    x + a + b + c
  }

  lemma ProductIsSum(x: bv32)
    ensures Times(x) == Add4(x, x << 8, x << 16, x << 24)
  {
  }

  lemma AddTwice(x: bv32, a: bv32, b: bv32)
    ensures Add(Add(x, a), b) == x + a + b
  {
    assert Add(x, a) == x + a;
    assert Add(Add(x, a), b) == Add(x + a, b);
  }

  lemma AddOnce(x: bv32, a: bv32, b: bv32, c: bv32)
    ensures Add(x + a + b, c) == x + a + b + c
  {
  }

  lemma AddThrice(x: bv32, a: bv32, b: bv32, c: bv32)
    ensures Add(Add(Add(x, a), b), c) == Add4(x, a, b, c)
  {
    hide Add;
    AddTwice(x, a, b);
    AddOnce(x, a, b, c);
  }

  lemma ShiftsByByte(x: bv32)
    ensures Shift(x, 1) == x << 8 && Shift(x, 2) == x << 16 && Shift(x, 3) == x << 24
  {
  }

  /** The product adds up four shifted copies of the word. */
  lemma ProductIsShifts(x: bv32)
    ensures Times(x) == Add(Add(Add(x, Shift(x, 1)), Shift(x, 2)), Shift(x, 3))
  {
    hide *;
    ShiftsByByte(x);
    ProductIsSum(x);
    AddThrice(x, Shift(x, 1), Shift(x, 2), Shift(x, 3));
  }

  lemma ShiftedLoad(q0: Byte, q1: Byte, q2: Byte, q3: Byte)
    ensures Shift(Load(q0, q1, q2, q3), 1) == Load(0, q0, q1, q2)
    ensures Shift(Load(q0, q1, q2, q3), 2) == Load(0, 0, q0, q1)
    ensures Shift(Load(q0, q1, q2, q3), 3) == Load(0, 0, 0, q0)
  {
  }

  function Top(x: bv32): bv32 {
    x >> 24
  }

  lemma TopOfLoad(b0: Byte, b1: Byte, b2: Byte, b3: Byte)
    ensures Top(Load(b0, b1, b2, b3)) == b3 as bv32
  {
  }

  lemma Zeroes(b: Byte)
    ensures Sum(b, 0) == b && Small(0)
  {
  }

  lemma SmallVal(b: Byte)
    requires Val(b) < 128
    ensures Small(b)
  {
    Below(b);
  }

  /** The last addition may fill the top byte, which has nothing above it to carry into. */
  lemma AddTop(a0: Byte, a1: Byte, a2: Byte, a3: Byte, c3: Byte)
    ensures Add(Load(a0, a1, a2, a3), Load(0, 0, 0, c3)) == Load(a0, a1, a2, Sum(a3, c3))
  {
  }

  /** Four bytes of at most 56: the top byte of the product is their sum. */
  lemma ProductAdds(q0: Byte, q1: Byte, q2: Byte, q3: Byte)
    requires Val(q0) <= 56 && Val(q1) <= 56 && Val(q2) <= 56 && Val(q3) <= 56
    ensures Top(Times(Load(q0, q1, q2, q3))) == Sum(Sum(Sum(q3, q2), q1), q0) as bv32
    ensures Val(Sum(Sum(Sum(q3, q2), q1), q0)) == Val(q0) + Val(q1) + Val(q2) + Val(q3)
  {
    hide Load, Add, Shift, Sum, Small, Top, Val, Times;
    ProductIsShifts(Load(q0, q1, q2, q3));
    ShiftedLoad(q0, q1, q2, q3);
    Zeroes(q0);
    SumCounts(q1, q0);
    SumCounts(q2, q1);
    SumCounts(q3, q2);
    SumCounts(Sum(q3, q2), q1);
    SumCounts(Sum(Sum(q3, q2), q1), q0);
    SmallVal(q0);
    SmallVal(q1);
    SmallVal(q2);
    SmallVal(q3);
    SmallVal(Sum(q1, q0));
    SmallVal(Sum(q2, q1));
    SmallVal(Sum(q3, q2));
    AddLoads(q0, q1, q2, q3, 0, q0, q1, q2);
    Zeroes(Sum(q1, q0));
    AddLoads(q0, Sum(q1, q0), Sum(q2, q1), Sum(q3, q2), 0, 0, q0, q1);
    AddTop(q0, Sum(q1, q0), Sum(Sum(q2, q1), q0), Sum(Sum(q3, q2), q1), q0);
    TopOfLoad(q0, Sum(q1, q0), Sum(Sum(q2, q1), q0), Sum(Sum(Sum(q3, q2), q1), q0));
  }

  lemma Widened(b: Byte)
    ensures (b as bv32) as int == Val(b)
  {
  }

  // ----- seven words

  function WordAt(s: seq<Byte>, k: nat): bv32
    requires 4 * k + 4 <= |s|
  {
    Load(s[4 * k], s[4 * k + 1], s[4 * k + 2], s[4 * k + 3])
  }

  /** The sum of the first k + 1 words after the three steps. */
  function WordSum(s: seq<Byte>, k: nat): bv32
    requires 4 * k + 4 <= |s|
  {
    if k == 0 then Swar(WordAt(s, 0)) else Add(WordSum(s, k - 1), Swar(WordAt(s, k)))
  }

  /** Byte i of that sum. */
  function LaneSum(s: seq<Byte>, i: nat, k: nat): Byte
    requires i < 4 && 4 * k + 4 <= |s|
  {
    if k == 0 then Total(s[i]) else Sum(LaneSum(s, i, k - 1), Total(s[4 * k + i]))
  }

  lemma ByteIsAtMostEight(b: Byte)
    ensures BitsInByte(b) <= 8
  {
  }

  lemma {:induction false} LaneCounts(s: seq<Byte>, i: nat, k: nat)
    requires i < 4 && 4 * k + 4 <= |s| && k < 7
    ensures Val(LaneSum(s, i, k)) <= 8 * (k + 1)
    ensures Val(LaneSum(s, i, k)) == (if k == 0 then 0 else Val(LaneSum(s, i, k - 1))) + BitsInByte(s[4 * k + i])
  {
    hide Val, Sum, Total, BitsInByte;
    TotalCounts(s[4 * k + i]);
    ByteIsAtMostEight(s[4 * k + i]);
    if k > 0 {
      LaneCounts(s, i, k - 1);
      SumCounts(LaneSum(s, i, k - 1), Total(s[4 * k + i]));
    }
  }

  /** Seven words keep every byte of the sum at 56 or less, so the bytes never meet. */
  lemma {:induction false} WordSumIsLanes(s: seq<Byte>, k: nat)
    requires 4 * k + 4 <= |s| && k < 7
    ensures WordSum(s, k) == Load(LaneSum(s, 0, k), LaneSum(s, 1, k), LaneSum(s, 2, k), LaneSum(s, 3, k))
  {
    hide Load, Add, Swar, Sum, Total, Small, Val, BitsInByte;
    SwarOfLoad(s[4 * k], s[4 * k + 1], s[4 * k + 2], s[4 * k + 3]);
    if k > 0 {
      WordSumIsLanes(s, k - 1);
      LaneIsSmall(s, 0, k);
      LaneIsSmall(s, 1, k);
      LaneIsSmall(s, 2, k);
      LaneIsSmall(s, 3, k);
      AddLoads(LaneSum(s, 0, k - 1), LaneSum(s, 1, k - 1), LaneSum(s, 2, k - 1), LaneSum(s, 3, k - 1),
               Total(s[4 * k]), Total(s[4 * k + 1]), Total(s[4 * k + 2]), Total(s[4 * k + 3]));
    }
  }

  lemma LaneIsSmall(s: seq<Byte>, i: nat, k: nat)
    requires i < 4 && 4 * k + 4 <= |s| && 0 < k < 7
    ensures Small(LaneSum(s, i, k - 1)) && Small(Total(s[4 * k + i]))
  {
    hide Small, Val, Total, BitsInByte;
    LaneCounts(s, i, k - 1);
    SmallVal(LaneSum(s, i, k - 1));
    TotalCounts(s[4 * k + i]);
    ByteIsAtMostEight(s[4 * k + i]);
    SmallVal(Total(s[4 * k + i]));
  }

  lemma {:induction false} LanesCountAll(s: seq<Byte>, k: nat)
    requires 4 * k + 4 <= |s| && k < 7
    ensures Val(LaneSum(s, 0, k)) + Val(LaneSum(s, 1, k)) + Val(LaneSum(s, 2, k)) + Val(LaneSum(s, 3, k))
              == BitSum(s[..4 * k + 4])
  {
    hide Val, LaneSum, BitsInByte, BitSum;
    LaneCounts(s, 0, k);
    LaneCounts(s, 1, k);
    LaneCounts(s, 2, k);
    LaneCounts(s, 3, k);
    BitSumSnoc(s, 4 * k);
    BitSumSnoc(s, 4 * k + 1);
    BitSumSnoc(s, 4 * k + 2);
    BitSumSnoc(s, 4 * k + 3);
    if k == 0 {
      NoBits(s);
    } else {
      LanesCountAll(s, k - 1);
    }
  }

  lemma NoBits(s: seq<Byte>)
    ensures BitSum(s[..0]) == 0
  {
  }

  /** The 28 bytes of one round, counted as the program does it. */
  method CountRound(s: seq<Byte>) returns (bits: nat)
    requires |s| == 28
    ensures bits == BitSum(s)
  {
    hide Load, Add, Swar, LaneSum, BitSum, Times, Top, Sum, Val;
    var aux1, aux2, aux3, aux4 := Swar(WordAt(s, 0)), Swar(WordAt(s, 1)), Swar(WordAt(s, 2)), Swar(WordAt(s, 3));
    var aux5, aux6, aux7 := Swar(WordAt(s, 4)), Swar(WordAt(s, 5)), Swar(WordAt(s, 6));
    var sum := Add(Add(Add(Add(Add(Add(aux1, aux2), aux3), aux4), aux5), aux6), aux7);
    SevenWords(s);
    bits := Top(Times(sum)) as int;
    RoundCounts(s);
  }

  lemma SevenWords(s: seq<Byte>)
    requires |s| == 28
    ensures WordSum(s, 6)
         == Add(Add(Add(Add(Add(Add(Swar(WordAt(s, 0)), Swar(WordAt(s, 1))), Swar(WordAt(s, 2))),
                            Swar(WordAt(s, 3))), Swar(WordAt(s, 4))), Swar(WordAt(s, 5))), Swar(WordAt(s, 6)))
  {
    hide Add, Swar, WordAt;
    assert WordSum(s, 1) == Add(Swar(WordAt(s, 0)), Swar(WordAt(s, 1)));
    assert WordSum(s, 3) == Add(Add(WordSum(s, 1), Swar(WordAt(s, 2))), Swar(WordAt(s, 3)));
    assert WordSum(s, 5) == Add(Add(WordSum(s, 3), Swar(WordAt(s, 4))), Swar(WordAt(s, 5)));
  }

  lemma RoundCounts(s: seq<Byte>)
    requires |s| == 28
    ensures Top(Times(WordSum(s, 6))) as int == BitSum(s)
  {
    hide Load, LaneSum, WordSum, BitSum, Times, Top, Sum, Val, BitsInByte;
    var q0, q1, q2, q3 := LaneSum(s, 0, 6), LaneSum(s, 1, 6), LaneSum(s, 2, 6), LaneSum(s, 3, 6);
    LaneCounts(s, 0, 6);
    LaneCounts(s, 1, 6);
    LaneCounts(s, 2, 6);
    LaneCounts(s, 3, 6);
    WordSumIsLanes(s, 6);
    ProductAdds(q0, q1, q2, q3);
    LanesCountAll(s, 6);
    assert s[..28] == s;
    Widened(Sum(Sum(Sum(q3, q2), q1), q0));
  }

  /** redisPopcount, on a string that starts at address addr. */
  method RedisPopcount(s: seq<Byte>, addr: nat) returns (bits: nat)
    ensures bits == BitSum(s)
  {
    hide BitsInByte, BitSum;
    bits := 0;
    var next := 0;
    NoBits(s);
    while (addr + next) % 4 != 0 && next < |s|
      invariant next <= |s| && bits == BitSum(s[..next])
      decreases |s| - next
    {
      BitSumSnoc(s, next);
      bits := bits + BitsInByte(s[next]);
      next := next + 1;
    }
    while |s| - next >= 28
      invariant next <= |s| && bits == BitSum(s[..next])
    {
      var round := CountRound(s[next..next + 28]);
      assert s[..next + 28] == s[..next] + s[next..next + 28];
      BitSumAppend(s[..next], s[next..next + 28]);
      bits := bits + round;
      next := next + 28;
    }
    while next < |s|
      invariant next <= |s| && bits == BitSum(s[..next])
    {
      BitSumSnoc(s, next);
      bits := bits + BitsInByte(s[next]);
      next := next + 1;
    }
    assert s[..|s|] == s;
  }
}
