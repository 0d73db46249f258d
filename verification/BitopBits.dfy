/**
 BITOP on bits: which bits of the result are set, by the bits of the sources, all taken as
 followed by zeros; and the laws that follow for whole strings.
 */
module BitopBits {
  import opened Prelude
  import opened Bitpos
  import opened Bitop
  import Fields = Bitfield

  /** How many of the sources have bit i. */
  function Voters(srcs: seq<seq<Byte>>, i: nat): nat {
    if srcs == [] then 0
    else Voters(srcs[..|srcs| - 1], i) + if Fields.BitOf(srcs[|srcs| - 1], i) then 1 else 0
  }

  /** The bit of a result, by the number of sources that have it. */
  predicate Wins(op: Op, votes: nat, of: nat) {
    match op
    case And => votes == of
    case Or => votes > 0
    case Xor => votes % 2 == 1
    case Not => votes == 0
  }

  lemma AndOnBits(a: Byte, b: Byte, t: nat)
    requires t < 8
    ensures TestBit(a & b, t) == (TestBit(a, t) && TestBit(b, t))
  {
  }

  lemma OrOnBits(a: Byte, b: Byte, t: nat)
    requires t < 8
    ensures TestBit(a | b, t) == (TestBit(a, t) || TestBit(b, t))
  {
    hide TestBit, Fields.Mask;
    MaskTests(a, t);
    MaskTests(b, t);
    MaskTests(a | b, t);
    OrMasked(a, b, Fields.Mask(t));
  }

  lemma XorOnBits(a: Byte, b: Byte, t: nat)
    requires t < 8
    ensures TestBit(a ^ b, t) == (TestBit(a, t) != TestBit(b, t))
  {
    hide TestBit, Fields.Mask;
    var m := Fields.Mask(t);
    MaskTests(a, t);
    MaskTests(b, t);
    MaskTests(a ^ b, t);
    XorMasked(a, b, m);
  }

  lemma MaskTests(b: Byte, t: nat)
    requires t < 8
    ensures TestBit(b, t) <==> b & Fields.Mask(t) != 0
    ensures b & Fields.Mask(t) == 0 || b & Fields.Mask(t) == Fields.Mask(t)
  {
  }

  lemma OrMasked(a: Byte, b: Byte, m: Byte)
    ensures (a | b) & m == 0 <==> a & m == 0 && b & m == 0
  {
  }

  lemma XorMasked(a: Byte, b: Byte, m: Byte)
    ensures a & m == b & m ==> (a ^ b) & m == 0
    ensures a & m != b & m ==> (a ^ b) & m != 0
  {
  }

  lemma NotOnBits(a: Byte, t: nat)
    requires t < 8
    ensures TestBit(!a, t) == !TestBit(a, t) && !TestBit(0, t)
  {
  }

  lemma OpOnBits(op: Op, a: Byte, b: Byte, t: nat)
    requires t < 8
    ensures TestBit(OnBytes(op, a, b), t) ==
              match op
              case And => TestBit(a, t) && TestBit(b, t)
              case Or => TestBit(a, t) || TestBit(b, t)
              case Xor => TestBit(a, t) != TestBit(b, t)
              case Not => !TestBit(a, t)
  {
    hide TestBit;
    match op
    case And => AndOnBits(a, b, t);
    case Or => OrOnBits(a, b, t);
    case Xor => XorOnBits(a, b, t);
    case Not => NotOnBits(a, t);
  }

  lemma ByteBit(s: seq<Byte>, j: nat, t: nat)
    requires t < 8
    ensures TestBit(ByteAt(s, j), t) == Fields.BitOf(s, 8 * j + t)
  {
    hide TestBit;
    NotOnBits(0, t);
    assert (8 * j + t) / 8 == j && (8 * j + t) % 8 == t;
  }

  lemma {:induction false} VotersBound(srcs: seq<seq<Byte>>, i: nat)
    ensures Voters(srcs, i) <= |srcs|
  {
    if srcs != [] {
      VotersBound(srcs[..|srcs| - 1], i);
    }
  }

  lemma {:induction false} FoldBit(op: Op, srcs: seq<seq<Byte>>, j: nat, n: nat, t: nat)
    requires 1 <= n <= |srcs| && t < 8 && (op.Not? ==> n == 1)
    ensures TestBit(Fold(op, srcs, j, n), t) <==> Wins(op, Voters(srcs[..n], 8 * j + t), n)
    decreases n
  {
    hide TestBit, Fields.BitOf, OnBytes;
    var i := 8 * j + t;
    ByteBit(srcs[n - 1], j, t);
    assert srcs[..n][..n - 1] == srcs[..n - 1];
    if n == 1 {
      assert srcs[..0] == [];
      NotOnBits(ByteAt(srcs[0], j), t);
    } else {
      FoldBit(op, srcs, j, n - 1, t);
      OpOnBits(op, Fold(op, srcs, j, n - 1), ByteAt(srcs[n - 1], j), t);
      VotersBound(srcs[..n - 1], i);
    }
  }

  lemma {:induction false} LongestIs(srcs: seq<seq<Byte>>)
    ensures forall i :: 0 <= i < |srcs| ==> |srcs[i]| <= Longest(srcs)
    ensures srcs != [] ==> exists i :: 0 <= i < |srcs| && |srcs[i]| == Longest(srcs)
  {
    if srcs != [] {
      var n := |srcs| - 1;
      LongestIs(srcs[..n]);
      if n == 0 {
        assert srcs[..n] == [];
        assert |srcs[0]| == Longest(srcs);
      } else if Longest(srcs) == |srcs[n]| {
        assert |srcs[n]| == Longest(srcs);
      } else {
        var i :| 0 <= i < n && |srcs[..n][i]| == Longest(srcs[..n]);
        assert |srcs[i]| == Longest(srcs);
      }
    }
  }

  /**
   The result is as long as the longest source. A bit of it is set, for AND, if all sources
   have it, for OR if one has, for XOR if an odd number has, for NOT if the source has not.
   */
  lemma ResultBits(op: Op, srcs: seq<seq<Byte>>, i: nat)
    requires srcs != [] && (op.Not? ==> |srcs| == 1)
    ensures (forall k :: 0 <= k < |srcs| ==> |srcs[k]| <= |Result(op, srcs)|)
            && exists k :: 0 <= k < |srcs| && |srcs[k]| == |Result(op, srcs)|
    ensures i < 8 * |Result(op, srcs)| ==> (BitAt(Result(op, srcs), i) <==> Wins(op, Voters(srcs, i), |srcs|))
  {
    hide TestBit, Fold, Longest;
    LongestIs(srcs);
    if i < 8 * |Result(op, srcs)| {
      FoldBit(op, srcs, i / 8, |srcs|, i % 8);
      assert srcs[..|srcs|] == srcs;
    }
  }
}
