/**
 The bitmap of allowed commands: sixteen words of 64 bits, addressed by command id, and
 its meaning as a sequence of booleans.
 */
module CommandBits {

  const USER_COMMAND_BITS_COUNT: nat := 1024
  const WORDS: nat := 16

  function Double(x: bv64): bv64 {
    x << 1
  }

  /** 1 << k */
  function Mask(k: nat): bv64 {
    if k == 0 then 1 else Double(Mask(k - 1))
  }

  function And(a: bv64, b: bv64): bv64 {
    a & b
  }

  function Or(a: bv64, b: bv64): bv64 {
    a | b
  }

  function Without(a: bv64, b: bv64): bv64 {
    a & !b
  }

  // ----- masks are different single bits, and there is one for each bit

  lemma DoubleAnd(a: bv64, b: bv64)
    ensures And(Double(a), Double(b)) == Double(And(a, b))
    ensures And(1, Double(b)) == 0 && And(Double(a), 1) == 0 && Double(0) == 0
  {
  }

  lemma {:induction false} MasksApart(j: nat, k: nat)
    requires j != k
    ensures And(Mask(j), Mask(k)) == 0
  {
    hide And, Double;
    if j == 0 {
      DoubleAnd(0, Mask(k - 1));
    } else if k == 0 {
      DoubleAnd(Mask(j - 1), 0);
    } else {
      MasksApart(j - 1, k - 1);
      DoubleAnd(Mask(j - 1), Mask(k - 1));
    }
  }

  /** x doubled n times. */
  function Doubled(x: bv64, n: nat): bv64
    decreases n
  {
    if n == 0 then x else Doubled(Double(x), n - 1)
  }

  lemma {:induction false} DoubledMask(k: nat, n: nat)
    ensures Doubled(Mask(k), n) == Mask(k + n)
    decreases n
  {
    hide Double;
    if n > 0 {
      DoubledMask(k + 1, n - 1);
    }
  }

  lemma {:induction false} DoubledZero(n: nat)
    ensures Doubled(0, n) == 0
  {
    hide Double;
    if n > 0 {
      DoubleAnd(0, 0);
      DoubledZero(n - 1);
    }
  }

  function Byteful(x: bv64): bv64 {
    x << 8
  }

  lemma EightDoublings(x: bv64)
    ensures Double(Double(Double(Double(Double(Double(Double(Double(x)))))))) == Byteful(x)
  {
  }

  lemma MaskByte(k: nat)
    ensures Mask(k + 8) == Byteful(Mask(k))
  {
    hide Double, Byteful;
    EightDoublings(Mask(k));
    assert Mask(k + 2) == Double(Double(Mask(k)));
    assert Mask(k + 4) == Double(Double(Mask(k + 2)));
    assert Mask(k + 6) == Double(Double(Mask(k + 4)));
    assert Mask(k + 8) == Double(Double(Mask(k + 6)));
  }

  lemma SevenBytes()
    ensures Double(Double(Double(Double(Double(Double(Double(
              Byteful(Byteful(Byteful(Byteful(Byteful(Byteful(Byteful(1)))))))))))))) == 0x8000000000000000
  {
  }

  lemma LastMask()
    ensures Mask(63) == 0x8000000000000000
  {
    hide Double, Byteful, Mask;
    MaskZero();
    MaskByte(0);
    MaskByte(8);
    MaskByte(16);
    MaskByte(24);
    MaskByte(32);
    MaskByte(40);
    MaskByte(48);
    MaskSeven(56);
    SevenBytes();
  }

  lemma MaskZero()
    ensures Mask(0) == 1
  {
  }

  lemma MaskSeven(k: nat)
    ensures Mask(k + 7) == Double(Double(Double(Double(Double(Double(Double(Mask(k))))))))
  {
    hide Double;
    assert Mask(k + 2) == Double(Double(Mask(k)));
    assert Mask(k + 4) == Double(Double(Mask(k + 2)));
    assert Mask(k + 6) == Double(Double(Mask(k + 4)));
  }

  lemma MaskIsSet(k: nat)
    requires k < 64
    ensures Mask(k) != 0
  {
    hide Mask, Doubled;
    DoubledMask(k, 63 - k);
    DoubledZero(63 - k);
    LastMask();
  }

  /** The k lowest bits. */
  function Low(k: nat): bv64 {
    if k == 0 then 0 else Or(Double(Low(k - 1)), 1)
  }

  lemma DoubleOr(a: bv64, b: bv64)
    ensures Or(Double(Or(a, b)), 1) == Or(Or(Double(a), 1), Double(b))
  {
  }

  lemma OneOne()
    ensures Or(Double(0), 1) == Or(0, 1)
  {
  }

  lemma {:induction false} LowMore(k: nat)
    ensures Low(k + 1) == Or(Low(k), Mask(k))
  {
    hide Or, Double;
    OneOne();
    if k > 0 {
      LowMore(k - 1);
      DoubleOr(Low(k - 1), Mask(k - 1));
    }
  }

  function OnesByte(x: bv64): bv64 {
    (x << 8) | 0xff
  }

  lemma EightOnes(x: bv64)
    ensures var x2 := Or(Double(Or(Double(x), 1)), 1);
            var x4 := Or(Double(Or(Double(x2), 1)), 1);
            var x6 := Or(Double(Or(Double(x4), 1)), 1);
            Or(Double(Or(Double(x6), 1)), 1) == OnesByte(x)
  {
  }

  lemma LowByte(k: nat)
    ensures Low(k + 8) == OnesByte(Low(k))
  {
    hide Or, Double, OnesByte;
    EightOnes(Low(k));
    assert Low(k + 2) == Or(Double(Or(Double(Low(k)), 1)), 1);
    assert Low(k + 4) == Or(Double(Or(Double(Low(k + 2)), 1)), 1);
    assert Low(k + 6) == Or(Double(Or(Double(Low(k + 4)), 1)), 1);
    assert Low(k + 8) == Or(Double(Or(Double(Low(k + 6)), 1)), 1);
  }

  lemma AllOnes()
    ensures OnesByte(OnesByte(OnesByte(OnesByte(OnesByte(OnesByte(OnesByte(OnesByte(0)))))))) == 0xffffffffffffffff
  {
  }

  lemma LowAll()
    ensures Low(64) == 0xffffffffffffffff
  {
    hide Or, Double, OnesByte, Low;
    LowNothing();
    LowByte(0);
    LowByte(8);
    LowByte(16);
    LowByte(24);
    LowByte(32);
    LowByte(40);
    LowByte(48);
    LowByte(56);
    AllOnes();
  }

  lemma LowNothing()
    ensures Low(0) == 0
  {
  }

  function Diff(v: bv64, w: bv64): bv64 {
    v ^ w
  }

  lemma DiffUnder(v: bv64, w: bv64, m: bv64)
    requires And(v, m) == And(w, m)
    ensures And(Diff(v, w), m) == 0
  {
  }

  lemma ClearUnderBoth(d: bv64, a: bv64, b: bv64)
    requires And(d, a) == 0 && And(d, b) == 0
    ensures And(d, Or(a, b)) == 0
  {
  }

  lemma NoDiff(v: bv64, w: bv64)
    requires Diff(v, w) == 0
    ensures v == w
  {
  }

  lemma AndNothing(w: bv64)
    ensures And(w, 0) == 0
  {
  }

  lemma AndAll(w: bv64)
    ensures And(w, 0xffffffffffffffff) == w
  {
  }

  /** For a single bit, being set or not is all there is. */
  lemma {:induction false} SingleBit(v: bv64, w: bv64, k: nat)
    requires And(v, Mask(k)) != 0 <==> And(w, Mask(k)) != 0
    ensures And(v, Mask(k)) == And(w, Mask(k))
  {
    hide And, Double;
    if k == 0 {
      LowestBit(v, w);
    } else {
      HalveAnd(v, Mask(k - 1));
      HalveAnd(w, Mask(k - 1));
      SingleBit(Half(v), Half(w), k - 1);
    }
  }

  function Half(v: bv64): bv64 {
    v >> 1
  }

  lemma LowestBit(v: bv64, w: bv64)
    requires And(v, 1) != 0 <==> And(w, 1) != 0
    ensures And(v, 1) == And(w, 1)
  {
  }

  lemma HalveAnd(v: bv64, m: bv64)
    ensures And(v, Double(m)) == Double(And(Half(v), m))
    ensures And(v, Double(m)) != 0 <==> And(Half(v), m) != 0
  {
  }

  /** Two words with the same bits are the same word. */
  lemma SameBits(v: bv64, w: bv64)
    requires forall k: nat :: k < 64 ==> (And(v, Mask(k)) != 0 <==> And(w, Mask(k)) != 0)
    ensures v == w
  {
    hide And, Mask, Low, Diff;
    SameLow(v, w, 64);
    LowAll();
    AndAll(Diff(v, w));
    NoDiff(v, w);
  }

  lemma {:induction false} SameLow(v: bv64, w: bv64, n: nat)
    requires n <= 64 && forall k: nat :: k < 64 ==> (And(v, Mask(k)) != 0 <==> And(w, Mask(k)) != 0)
    ensures And(Diff(v, w), Low(n)) == 0
  {
    hide And, Or, Mask, Double, Diff;
    if n == 0 {
      AndNothing(Diff(v, w));
    } else {
      SameLow(v, w, n - 1);
      SingleBit(v, w, n - 1);
      DiffUnder(v, w, Mask(n - 1));
      LowMore(n - 1);
      ClearUnderBoth(Diff(v, w), Low(n - 1), Mask(n - 1));
    }
  }

  // ----- reading and writing one bit

  /** The bit of a command id in the bitmap. */
  predicate Get(words: seq<bv64>, id: nat)
    requires |words| == WORDS && id < USER_COMMAND_BITS_COUNT
  {
    And(words[id / 64], Mask(id % 64)) != 0
  }

  function Put(words: seq<bv64>, id: nat, value: bool): (r: seq<bv64>)
    requires |words| == WORDS && id < USER_COMMAND_BITS_COUNT
    ensures |r| == WORDS
  {
    var w, m := words[id / 64], Mask(id % 64);
    words[id / 64 := if value then Or(w, m) else Without(w, m)]
  }

  lemma BitWritten(w: bv64, m: bv64)
    ensures And(Or(w, m), m) == m
    ensures And(Without(w, m), m) == 0
  {
  }

  lemma BitsKept(w: bv64, m: bv64, n: bv64)
    requires And(m, n) == 0
    ensures And(Or(w, m), n) == And(w, n)
    ensures And(Without(w, m), n) == And(w, n)
  {
    hide *;
    KeptBySetting(w, m, n);
    KeptByClearing(w, m, n);
  }

  lemma KeptBySetting(w: bv64, m: bv64, n: bv64)
    requires And(m, n) == 0
    ensures And(Or(w, m), n) == And(w, n)
  {
    assert (w | m) & n == w & n by { DisjointOr(w, m, n); }
  }

  lemma DisjointOr(w: bv64, m: bv64, n: bv64)
    requires m & n == 0
    ensures (w | m) & n == w & n
  {
  }

  lemma KeptByClearing(w: bv64, m: bv64, n: bv64)
    requires And(m, n) == 0
    ensures And(Without(w, m), n) == And(w, n)
  {
    assert (w & !m) & n == w & n by { DisjointClear(w, m, n); }
  }

  lemma DisjointClear(w: bv64, m: bv64, n: bv64)
    requires m & n == 0
    ensures (w & !m) & n == w & n
  {
  }

  /** Writing a bit writes that bit and no other. */
  lemma GetPut(words: seq<bv64>, id: nat, value: bool, other: nat)
    requires |words| == WORDS && id < USER_COMMAND_BITS_COUNT && other < USER_COMMAND_BITS_COUNT
    ensures Get(Put(words, id, value), other) == if other == id then value else Get(words, other)
  {
    hide And, Or, Without, Mask;
    var w, m, n := words[id / 64], Mask(id % 64), Mask(other % 64);
    BitWritten(w, m);
    MaskIsSet(id % 64);
    if other != id && other / 64 == id / 64 {
      MasksApart(id % 64, other % 64);
      BitsKept(w, m, n);
    }
  }

  /** The bitmap as the truth value of each id. */
  function Bits(words: seq<bv64>): (r: seq<bool>)
    requires |words| == WORDS
    ensures |r| == USER_COMMAND_BITS_COUNT
  {
    seq(USER_COMMAND_BITS_COUNT, i requires 0 <= i < USER_COMMAND_BITS_COUNT => Get(words, i))
  }

  lemma BitAt(words: seq<bv64>, id: nat)
    requires |words| == WORDS && id < USER_COMMAND_BITS_COUNT
    ensures Bits(words)[id] == Get(words, id)
  {
  }

  lemma BitsOfPut(words: seq<bv64>, id: nat, value: bool)
    requires |words| == WORDS && id < USER_COMMAND_BITS_COUNT
    ensures Bits(Put(words, id, value)) == Bits(words)[id := value]
  {
    hide Get, Put;
    assert forall i :: 0 <= i < USER_COMMAND_BITS_COUNT ==> Bits(words)[i] == Get(words, i);
    forall i | 0 <= i < USER_COMMAND_BITS_COUNT
      ensures Bits(Put(words, id, value))[i] == Bits(words)[id := value][i]
    {
      GetPut(words, id, value, i);
    }
  }

  /** memcmp on the words compares the bits. */
  lemma BitsDecide(v: seq<bv64>, w: seq<bv64>)
    requires |v| == |w| == WORDS && Bits(v) == Bits(w)
    ensures v == w
  {
    hide And, Mask;
    forall i | 0 <= i < WORDS
      ensures v[i] == w[i]
    {
      forall k: nat | k < 64
        ensures And(v[i], Mask(k)) != 0 <==> And(w[i], Mask(k)) != 0
      {
        var id := 64 * i + k;
        assert id / 64 == i && id % 64 == k;
        assert Bits(v)[id] == Bits(w)[id];
      }
      SameBits(v[i], w[i]);
    }
  }

  /** memset to 255 or to 0. */
  lemma BitsOfAll(words: seq<bv64>, value: bool)
    requires |words| == WORDS && forall i :: 0 <= i < WORDS ==> words[i] == if value then 0xffffffffffffffff else 0
    ensures forall i :: 0 <= i < USER_COMMAND_BITS_COUNT ==> Bits(words)[i] == value
  {
    hide And, Mask;
    forall i | 0 <= i < USER_COMMAND_BITS_COUNT
      ensures Bits(words)[i] == value
    {
      MaskIsSet(i % 64);
      AllOrNothing(Mask(i % 64));
    }
  }

  lemma AllOrNothing(m: bv64)
    ensures And(0xffffffffffffffff, m) == m && And(0, m) == 0
  {
  }
}
