/**
 redisBitpos: skipping whole words, it still finds the first bit of the wanted value, at
 every length and alignment, and never reaches its panic.
 */
module Bitpos {
  import opened Prelude
  import Crc64

  // ----- bits of a string, from the left

  /** Bit t of a byte, the most significant first. */
  predicate TestBit(b: Byte, t: nat) {
    if t == 0 then b & 0x80 != 0 else if t == 1 then b & 0x40 != 0 else if t == 2 then b & 0x20 != 0
    else if t == 3 then b & 0x10 != 0 else if t == 4 then b & 0x08 != 0 else if t == 5 then b & 0x04 != 0
    else if t == 6 then b & 0x02 != 0 else b & 0x01 != 0
  }

  predicate BitAt(s: seq<Byte>, i: nat)
    requires i < 8 * |s|
  {
    TestBit(s[i / 8], i % 8)
  }

  /** What redisBitpos promises: strings are zero padded on the right, and -1 means there is no one bit. */
  ghost predicate IsFirst(s: seq<Byte>, bit: bool, r: int) {
    && -1 <= r <= 8 * |s|
    && (r == -1 ==> bit && forall i: nat :: i < 8 * |s| ==> !BitAt(s, i))
    && (r >= 0 ==> forall i: nat :: i < r ==> BitAt(s, i) != bit)
    && (0 <= r < 8 * |s| ==> BitAt(s, r) == bit)
    && (r == 8 * |s| ==> !bit)
  }

  // ----- bits of a word, from the left

  function Double(w: bv64): bv64 {
    w << 1
  }

  predicate Top(w: bv64) {
    w & 0x8000000000000000 != 0
  }

  /** Bit k of a word, the most significant first. */
  predicate WordBit(w: bv64, k: nat)
    decreases k
  {
    if k == 0 then Top(w) else WordBit(Double(w), k - 1)
  }

  function Half(m: bv64): bv64 {
    m >> 1
  }

  /** The mask of the scanning loop after k shifts. */
  function One(k: nat): bv64 {
    if k == 0 then 0x8000000000000000 else Half(One(k - 1))
  }

  predicate Hits(w: bv64, m: bv64) {
    m & w != 0
  }

  lemma HalfDouble(w: bv64, m: bv64)
    ensures Hits(w, Half(m)) == Hits(Double(w), m)
  {
  }

  lemma {:induction false} MaskTests(w: bv64, k: nat)
    ensures Hits(w, One(k)) == WordBit(w, k)
    decreases k
  {
    hide Hits, Half, Double, Top;
    if k == 0 {
      FirstMask(w);
    } else {
      MaskTests(Double(w), k - 1);
      HalfDouble(w, One(k - 1));
    }
  }

  lemma FirstMask(w: bv64)
    ensures Hits(w, One(0)) == Top(w)
  {
  }

  // ----- the mask lasts exactly 64 rounds

  function Byteful(m: bv64): bv64 {
    m >> 8
  }

  lemma EightHalves(m: bv64)
    ensures Half(Half(Half(Half(Half(Half(Half(Half(m)))))))) == Byteful(m)
  {
  }

  lemma OneByte(k: nat)
    ensures One(k + 8) == Byteful(One(k))
  {
    hide Half, Byteful;
    assert One(k + 2) == Half(Half(One(k)));
    assert One(k + 4) == Half(Half(One(k + 2)));
    assert One(k + 6) == Half(Half(One(k + 4)));
    assert One(k + 8) == Half(Half(One(k + 6)));
    EightHalves(One(k));
  }

  lemma LastMasks()
    ensures One(56) == 0x80 && One(64) == 0
  {
    hide One, Half, Byteful;
    FirstOne();
    OneByte(0);
    OneByte(8);
    OneByte(16);
    OneByte(24);
    OneByte(32);
    OneByte(40);
    OneByte(48);
    OneByte(56);
    SevenBytes();
  }

  lemma FirstOne()
    ensures One(0) == 0x8000000000000000
  {
  }

  lemma SevenBytes()
    ensures Byteful(Byteful(Byteful(Byteful(Byteful(Byteful(Byteful(0x8000000000000000))))))) == 0x80
    ensures Byteful(0x80) == 0
  {
  }

  lemma {:induction false} ZeroStaysZero(k: nat, n: nat)
    requires One(k) == 0
    ensures One(k + n) == 0
  {
    hide Half;
    if n > 0 {
      ZeroStaysZero(k, n - 1);
      HalfOfZero();
    }
  }

  lemma HalfOfZero()
    ensures Half(0) == 0
  {
  }

  lemma LowOne()
    ensures One(63) == 1
  {
    hide Half;
    LastMasks();
    assert One(58) == Half(Half(One(56)));
    assert One(60) == Half(Half(One(58)));
    assert One(62) == Half(Half(One(60)));
    SevenHalves();
  }

  lemma SevenHalves()
    ensures Half(Half(Half(Half(Half(Half(Half(0x80))))))) == 1
  {
  }

  lemma MaskIsSet(k: nat)
    requires k < 64
    ensures One(k) != 0
  {
    hide One;
    if One(k) == 0 {
      ZeroStaysZero(k, 63 - k);
      LowOne();
    }
  }

  // ----- a word with no bit set is zero

  function Doubles(w: bv64, n: nat): bv64
    decreases n
  {
    if n == 0 then w else Doubles(Double(w), n - 1)
  }

  lemma {:induction false} NoBitSet(w: bv64, n: nat)
    requires (forall k: nat :: k < n ==> !WordBit(w, k)) && Doubles(w, n) == 0
    ensures w == 0
    decreases n
  {
    hide Double, Top;
    if n > 0 {
      forall k: nat | k < n - 1
        ensures !WordBit(Double(w), k)
      {
        assert WordBit(w, k + 1) == WordBit(Double(w), k);
      }
      NoBitSet(Double(w), n - 1);
      assert !WordBit(w, 0);
      DoubledZero(w);
    }
  }

  lemma DoubledZero(w: bv64)
    requires Double(w) == 0 && !Top(w)
    ensures w == 0
  {
  }

  function Raise(w: bv64): bv64 {
    w << 8
  }

  lemma EightDoubles(w: bv64)
    ensures Double(Double(Double(Double(Double(Double(Double(Double(w)))))))) == Raise(w)
  {
  }

  lemma DoublesByte(w: bv64, n: nat)
    ensures Doubles(w, n + 8) == Doubles(Raise(w), n)
  {
    hide Double, Raise;
    var w2 := Double(Double(w));
    var w4 := Double(Double(w2));
    var w6 := Double(Double(w4));
    assert Doubles(w, n + 8) == Doubles(w2, n + 6);
    assert Doubles(w2, n + 6) == Doubles(w4, n + 4);
    assert Doubles(w4, n + 4) == Doubles(w6, n + 2);
    EightDoubles(w);
  }

  lemma EightRaises(w: bv64)
    ensures Raise(Raise(Raise(Raise(Raise(Raise(Raise(Raise(w)))))))) == 0
  {
  }

  lemma AllDoubled(w: bv64)
    ensures Doubles(w, 64) == 0
  {
    hide Doubles, Raise;
    var w1 := Raise(w);
    var w2 := Raise(w1);
    var w3 := Raise(w2);
    var w4 := Raise(w3);
    var w5 := Raise(w4);
    var w6 := Raise(w5);
    var w7 := Raise(w6);
    DoublesByte(w, 56);
    DoublesByte(w1, 48);
    DoublesByte(w2, 40);
    DoublesByte(w3, 32);
    DoublesByte(w4, 24);
    DoublesByte(w5, 16);
    DoublesByte(w6, 8);
    DoublesByte(w7, 0);
    EightRaises(w);
    NotDoubled(Raise(w7));
  }

  lemma NotDoubled(w: bv64)
    ensures Doubles(w, 0) == w
  {
  }

  /** A word that is not zero has a bit set. */
  lemma SomeBitSet(w: bv64) returns (k: nat)
    requires w != 0
    ensures k < 64 && WordBit(w, k)
  {
    AllDoubled(w);
    if forall k: nat :: k < 64 ==> !WordBit(w, k) {
      NoBitSet(w, 64);
    }
    k :| k < 64 && WordBit(w, k);
  }

  // ----- loading bytes into a word

  function Append(w: bv64, b: Byte): bv64 {
    (w << 8) | (b as bv64)
  }

  /** The loop that loads bytes, the first the most significant. */
  function Loaded(p: seq<Byte>): bv64 {
    if p == [] then 0 else Append(Loaded(p[..|p| - 1]), p[|p| - 1])
  }

  lemma LoadedSnoc(p: seq<Byte>, b: Byte)
    ensures Loaded(p + [b]) == Append(Loaded(p), b)
  {
    hide Append;
    assert (p + [b])[..|p|] == p;
  }

  function TopByte(w: bv64): Byte {
    (w >> 56) as Byte
  }

  lemma LoadedBytes(b0: Byte, b1: Byte, b2: Byte, b3: Byte, b4: Byte, b5: Byte, b6: Byte, b7: Byte)
    ensures var w := Append(Append(Append(Append(Append(Append(Append(Append(0, b0), b1), b2), b3), b4), b5), b6),
                            b7);
            var w1 := Raise(w); var w2 := Raise(w1); var w3 := Raise(w2); var w4 := Raise(w3);
            var w5 := Raise(w4); var w6 := Raise(w5); var w7 := Raise(w6);
            && TopByte(w) == b0 && TopByte(w1) == b1 && TopByte(w2) == b2 && TopByte(w3) == b3
            && TopByte(w4) == b4 && TopByte(w5) == b5 && TopByte(w6) == b6 && TopByte(w7) == b7
  {
  }

  function Raised(w: bv64, j: nat): bv64
    decreases j
  {
    if j == 0 then w else Raised(Raise(w), j - 1)
  }

  lemma LoadedEight(p: seq<Byte>)
    requires |p| == 8
    ensures Loaded(p)
         == Append(Append(Append(Append(Append(Append(Append(Append(0, p[0]), p[1]), p[2]), p[3]), p[4]), p[5]),
                          p[6]), p[7])
  {
    hide Append;
    assert p[..0] == [];
    LoadedStep(p, 0);
    LoadedStep(p, 1);
    LoadedStep(p, 2);
    LoadedStep(p, 3);
    LoadedStep(p, 4);
    LoadedStep(p, 5);
    LoadedStep(p, 6);
    LoadedStep(p, 7);
    assert p[..8] == p;
  }

  lemma LoadedStep(p: seq<Byte>, i: nat)
    requires i < |p|
    ensures Loaded(p[..i + 1]) == Append(Loaded(p[..i]), p[i])
  {
    hide Append;
    assert p[..i + 1] == p[..i] + [p[i]];
    LoadedSnoc(p[..i], p[i]);
  }

  lemma RaisedIs(w: bv64)
    ensures Raised(w, 0) == w && Raised(w, 1) == Raise(w) && Raised(w, 2) == Raise(Raise(w))
  {
    hide Raise;
  }

  lemma RaisedMore(w: bv64, j: nat)
    ensures Raised(w, j + 2) == Raised(Raise(Raise(w)), j)
  {
    hide Raise;
  }

  lemma ByteOfLoaded(p: seq<Byte>, j: nat)
    requires |p| == 8 && j < 8
    ensures TopByte(Raised(Loaded(p), j)) == p[j]
  {
    hide *;
    LoadedEight(p);
    LoadedBytes(p[0], p[1], p[2], p[3], p[4], p[5], p[6], p[7]);
    var w := Loaded(p);
    var w2 := Raise(Raise(w));
    var w4 := Raise(Raise(w2));
    var w6 := Raise(Raise(w4));
    RaisedIs(w);
    RaisedIs(w2);
    RaisedIs(w4);
    RaisedIs(w6);
    if j >= 2 { RaisedMore(w, j - 2); }
    if j >= 4 { RaisedMore(w2, j - 4); }
    if j >= 6 { RaisedMore(w4, j - 6); }
  }

  lemma FirstOnes()
    ensures One(0) == 0x8000000000000000 && One(1) == 0x4000000000000000 && One(2) == 0x2000000000000000
    ensures One(3) == 0x1000000000000000 && One(4) == 0x0800000000000000 && One(5) == 0x0400000000000000
    ensures One(6) == 0x0200000000000000 && One(7) == 0x0100000000000000
  {
    assert One(1) == 0x4000000000000000;
    assert One(2) == 0x2000000000000000;
    assert One(3) == 0x1000000000000000;
    assert One(4) == 0x0800000000000000;
    assert One(5) == 0x0400000000000000;
    assert One(6) == 0x0200000000000000;
  }

  lemma HitsTop(w: bv64, m: Byte)
    ensures Hits(w, (m as bv64) << 56) == (TopByte(w) & m != 0)
  {
  }

  lemma TopByteBits(w: bv64, t: nat)
    requires t < 8
    ensures WordBit(w, t) == TestBit(TopByte(w), t)
  {
    hide WordBit, One, Hits, TopByte;
    MaskTests(w, t);
    FirstOnes();
    HitsTop(w, 0x80);
    HitsTop(w, 0x40);
    HitsTop(w, 0x20);
    HitsTop(w, 0x10);
    HitsTop(w, 0x08);
    HitsTop(w, 0x04);
    HitsTop(w, 0x02);
    HitsTop(w, 0x01);
  }

  lemma WordBitRaised(w: bv64, k: nat)
    ensures WordBit(w, k + 8) == WordBit(Raise(w), k)
  {
    hide Double, Raise, Top;
    var w2 := Double(Double(w));
    var w4 := Double(Double(w2));
    var w6 := Double(Double(w4));
    assert WordBit(w, k + 8) == WordBit(w2, k + 6);
    assert WordBit(w2, k + 6) == WordBit(w4, k + 4);
    assert WordBit(w4, k + 4) == WordBit(w6, k + 2);
    assert WordBit(w6, k + 2) == WordBit(Double(Double(w6)), k);
    EightDoubles(w);
  }

  lemma {:induction false} WordBitAt(w: bv64, j: nat, t: nat)
    ensures WordBit(w, 8 * j + t) == WordBit(Raised(w, j), t)
    decreases j
  {
    hide WordBit, Raise;
    if j > 0 {
      WordBitRaised(w, 8 * (j - 1) + t);
      WordBitAt(Raise(w), j - 1, t);
    }
  }

  /** The bits of the loaded word are the bits of the bytes, in order. */
  lemma LoadedBits(p: seq<Byte>, k: nat)
    requires |p| == 8 && k < 64
    ensures WordBit(Loaded(p), k) == BitAt(p, k)
  {
    hide WordBit, Loaded, Raised, TopByte, TestBit;
    var j, t := k / 8, k % 8;
    WordBitAt(Loaded(p), j, t);
    TopByteBits(Raised(Loaded(p), j), t);
    ByteOfLoaded(p, j);
  }

  // ----- what may be skipped, and what may not

  function SkipByte(bit: bool): Byte {
    if bit then 0 else 0xff
  }

  /** A byte that is not skipped has a bit of the wanted value; one that is skipped has none. */
  lemma ByteHasBit(b: Byte, bit: bool) returns (t: nat)
    requires b != SkipByte(bit)
    ensures t < 8 && TestBit(b, t) == bit
  {
    if TestBit(b, 0) == bit { return 0; }
    if TestBit(b, 1) == bit { return 1; }
    if TestBit(b, 2) == bit { return 2; }
    if TestBit(b, 3) == bit { return 3; }
    if TestBit(b, 4) == bit { return 4; }
    if TestBit(b, 5) == bit { return 5; }
    if TestBit(b, 6) == bit { return 6; }
    t := 7;
    EightTests(b, bit);
  }

  lemma EightTests(b: Byte, bit: bool)
    requires TestBit(b, 0) != bit && TestBit(b, 1) != bit && TestBit(b, 2) != bit && TestBit(b, 3) != bit
    requires TestBit(b, 4) != bit && TestBit(b, 5) != bit && TestBit(b, 6) != bit && b != SkipByte(bit)
    ensures TestBit(b, 7) == bit
  {
  }

  lemma SkippedByte(b: Byte, bit: bool, t: nat)
    requires b == SkipByte(bit)
    ensures TestBit(b, t) != bit
  {
  }

  ghost predicate Skipped(s: seq<Byte>, c: nat, bit: bool) {
    c <= |s| && forall i :: 0 <= i < c ==> s[i] == SkipByte(bit)
  }

  function SkipWord(bit: bool): bv64 {
    if bit then 0 else 0xffffffffffffffff
  }

  lemma WordOfSkips(b0: Byte, b1: Byte, b2: Byte, b3: Byte, b4: Byte, b5: Byte, b6: Byte, b7: Byte, bit: bool)
    ensures Crc64.LoadLittle([b0, b1, b2, b3, b4, b5, b6, b7]) == SkipWord(bit)
        <==> var k := SkipByte(bit);
             b0 == k && b1 == k && b2 == k && b3 == k && b4 == k && b5 == k && b6 == k && b7 == k
  {
  }

  /** Comparing the word compares all eight bytes. */
  lemma WordSkips(s: seq<Byte>, bit: bool)
    requires |s| == 8
    ensures Crc64.LoadLittle(s) == SkipWord(bit) <==> forall i :: 0 <= i < 8 ==> s[i] == SkipByte(bit)
  {
    hide Crc64.LoadLittle, SkipWord, SkipByte;
    assert s == [s[0], s[1], s[2], s[3], s[4], s[5], s[6], s[7]];
    WordOfSkips(s[0], s[1], s[2], s[3], s[4], s[5], s[6], s[7], bit);
  }

  /** The eight bytes at c, zero padded. */
  function Padded(s: seq<Byte>, c: nat): (p: seq<Byte>)
    ensures |p| == 8
  {
    seq(8, i requires 0 <= i < 8 => if c + i < |s| then s[c + i] else 0)
  }

  lemma PaddedBits(s: seq<Byte>, c: nat, k: nat)
    requires c <= |s| && k < 64
    ensures 8 * c + k < 8 * |s| ==> BitAt(Padded(s, c), k) == BitAt(s, 8 * c + k)
    ensures 8 * c + k >= 8 * |s| ==> !BitAt(Padded(s, c), k)
  {
    hide TestBit;
    if 8 * c + k >= 8 * |s| {
      SkippedByte(0, true, k % 8);
    }
  }

  lemma SkippedBits(s: seq<Byte>, c: nat, bit: bool, i: nat)
    requires Skipped(s, c, bit) && i < 8 * c
    ensures BitAt(s, i) != bit
  {
    hide TestBit;
    SkippedByte(s[i / 8], bit, i % 8);
  }

  /** The first match in the padded word, behind skipped bytes, is the first match of the string. */
  lemma FirstMatch(s: seq<Byte>, c: nat, bit: bool, k: nat)
    requires Skipped(s, c, bit) && k < 64 && BitAt(Padded(s, c), k) == bit
    requires forall j: nat :: j < k ==> BitAt(Padded(s, c), j) != bit
    ensures IsFirst(s, bit, 8 * c + k)
  {
    hide BitAt, Padded;
    PaddedBits(s, c, k);
    if 8 * c + k > 8 * |s| {
      PaddedBits(s, c, 8 * |s| - 8 * c);
    }
    forall i: nat | i < 8 * c + k
      ensures BitAt(s, i) != bit
    {
      if i < 8 * c {
        SkippedBits(s, c, bit, i);
      } else {
        PaddedBits(s, c, i - 8 * c);
      }
    }
  }

  /** When the padded word is zero nothing is left to find. */
  lemma NoMatch(s: seq<Byte>, c: nat)
    requires Skipped(s, c, true) && |s| < c + 8 && Loaded(Padded(s, c)) == 0
    ensures IsFirst(s, true, -1)
  {
    hide BitAt, Padded, Loaded;
    forall i: nat | i < 8 * |s|
      ensures !BitAt(s, i)
    {
      if i < 8 * c {
        SkippedBits(s, c, true, i);
      } else {
        PaddedBits(s, c, i - 8 * c);
        LoadedBits(Padded(s, c), i - 8 * c);
        ZeroHasNoBit(i - 8 * c);
      }
    }
  }

  lemma {:induction false} ZeroHasNoBit(k: nat)
    ensures !WordBit(0, k)
  {
    hide Double, Top;
    ZeroDoubled();
    if k > 0 {
      ZeroHasNoBit(k - 1);
    }
  }

  lemma ZeroDoubled()
    ensures Double(0) == 0 && !Top(0)
  {
  }

  /** Where the skipping stopped: at a byte or in a word worth looking at, or with less than a word left. */
  ghost predicate StoppedWell(s: seq<Byte>, c: nat, bit: bool) {
    |s| < c + 8 || exists i :: 0 <= i < 8 && Padded(s, c)[i] != SkipByte(bit)
  }

  /** The scan finds something, unless there is no one bit at all. */
  lemma MatchExists(s: seq<Byte>, c: nat, bit: bool) returns (k: nat)
    requires c <= |s| && StoppedWell(s, c, bit)
    requires !bit || Loaded(Padded(s, c)) != 0
    ensures k < 64 && BitAt(Padded(s, c), k) == bit
  {
    hide BitAt, Padded, Loaded, WordBit;
    var p := Padded(s, c);
    if bit {
      k := SomeBitSet(Loaded(p));
      LoadedBits(p, k);
    } else if |s| < c + 8 {
      k := 8 * (|s| - c);
      PaddedBits(s, c, k);
    } else {
      var i :| 0 <= i < 8 && p[i] != SkipByte(bit);
      var t := ByteHasBit(p[i], bit);
      k := 8 * i + t;
      assert BitAt(p, k) == TestBit(p[i], t) by { BitInByte(p, i, t); }
    }
  }

  lemma BitInByte(p: seq<Byte>, i: nat, t: nat)
    requires i < |p| && t < 8
    ensures BitAt(p, 8 * i + t) == TestBit(p[i], t)
  {
    hide TestBit;
    assert (8 * i + t) / 8 == i && (8 * i + t) % 8 == t;
  }

  /** A byte that stopped the skipping for one bits keeps the word from being zero. */
  lemma StoppedIsNotZero(s: seq<Byte>, c: nat)
    requires c <= |s| && exists i :: 0 <= i < 8 && Padded(s, c)[i] != SkipByte(true)
    ensures Loaded(Padded(s, c)) != 0
  {
    hide BitAt, Padded, Loaded, WordBit;
    var p := Padded(s, c);
    var i :| 0 <= i < 8 && p[i] != SkipByte(true);
    var t := ByteHasBit(p[i], true);
    BitInByte(p, i, t);
    LoadedBits(p, 8 * i + t);
    ZeroHasNoBit(8 * i + t);
  }

  // ----- the program

  /** The two skipping loops: how many bytes they pass. */
  method SkipAhead(s: seq<Byte>, addr: nat, bit: bool) returns (c: nat)
    ensures Skipped(s, c, bit) && StoppedWell(s, c, bit)
  {
    hide Crc64.LoadLittle;
    c := 0;
    while (addr + c) % 8 != 0 && c < |s|
      invariant Skipped(s, c, bit)
      decreases |s| - c
    {
      if s[c] != SkipByte(bit) {
        assert Padded(s, c)[0] == s[c];
        return;
      }
      c := c + 1;
    }
    while |s| - c >= 8
      invariant Skipped(s, c, bit)
    {
      WordSkips(s[c..c + 8], bit);
      if Crc64.LoadLittle(s[c..c + 8]) != SkipWord(bit) {
        var i :| 0 <= i < 8 && s[c..c + 8][i] != SkipByte(bit);
        assert Padded(s, c)[i] == s[c + i];
        return;
      }
      assert forall i :: c <= i < c + 8 ==> s[i] == s[c..c + 8][i - c];
      c := c + 8;
    }
  }

  /** The loop that loads the word, padding it with zeros. */
  method LoadWord(s: seq<Byte>, start: nat) returns (word: bv64)
    requires start <= |s|
    ensures word == Loaded(Padded(s, start))
  {
    hide Append;
    word := 0;
    ghost var p := Padded(s, start);
    var c := start;
    for j := 0 to 8
      invariant word == Loaded(p[..j])
      invariant start <= c <= |s| && (c == start + j || (c == |s| && start + j >= |s|))
    {
      LoadedStep(p, j);
      if c < |s| {
        word := Append(word, s[c]);
        c := c + 1;
      } else {
        word := Append(word, 0);
      }
    }
    assert p[..8] == p;
  }

  /** redisBitpos, on a string that starts at address addr. */
  method RedisBitpos(s: seq<Byte>, addr: nat, bit: bool) returns (pos: int, panics: bool)
    ensures !panics && IsFirst(s, bit, pos)
  {
    hide *;
    var c := SkipAhead(s, addr, bit);
    SkippedFits(s, c, bit);
    pos := 8 * c;
    var word := LoadWord(s, c);
    ghost var p := Padded(s, c);
    if bit && word == 0 {
      ZeroMeansShort(s, c);
      NoMatch(s, c);
      return -1, false;
    }
    ghost var m := MatchExists(s, c, bit);
    var one: bv64 := 0x8000000000000000;
    ghost var k: nat := 0;
    FirstOne();
    while one != 0
      invariant k <= 64 && pos == 8 * c + k && one == One(k)
      invariant forall j: nat :: j < k ==> BitAt(p, j) != bit
      decreases 64 - k
    {
      if k == 64 {
        LastMasks();
      }
      MaskTests(word, k);
      LoadedBits(p, k);
      if Hits(word, one) == bit {
        FirstMatch(s, c, bit, k);
        return pos, false;
      }
      pos := pos + 1;
      OneMore(k);
      one := Half(one);
      k := k + 1;
    }
    if k < 64 {
      MaskIsSet(k);
    }
    panics := true;
  }

  lemma OneMore(k: nat)
    ensures One(k + 1) == Half(One(k))
  {
  }

  lemma SkippedFits(s: seq<Byte>, c: nat, bit: bool)
    requires Skipped(s, c, bit)
    ensures c <= |s|
  {
  }

  lemma ZeroMeansShort(s: seq<Byte>, c: nat)
    requires c <= |s| && StoppedWell(s, c, true) && Loaded(Padded(s, c)) == 0
    ensures |s| < c + 8
  {
    hide Loaded, Padded;
    if exists i :: 0 <= i < 8 && Padded(s, c)[i] != SkipByte(true) {
      StoppedIsNotZero(s, c);
    }
  }
}
