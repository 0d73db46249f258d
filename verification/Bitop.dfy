/**
 BITOP: the path that works on four words at a time and the bytewise rest with its early
 exit compute, together, the plain bytewise operation on zero-extended strings.
 */
module Bitop {
  import opened Prelude

  datatype Op = And | Or | Xor | Not

  function OnBytes(op: Op, a: Byte, b: Byte): Byte {
    match op
    case And => a & b
    case Or => a | b
    case Xor => a ^ b
    case Not => !a
  }

  function OnWords(op: Op, a: bv64, b: bv64): bv64 {
    match op
    case And => a & b
    case Or => a | b
    case Xor => a ^ b
    case Not => !a
  }

  // ----- the plain operation

  /** Strings are zero extended. */
  function ByteAt(s: seq<Byte>, j: nat): Byte {
    if j < |s| then s[j] else 0
  }

  /** Byte j of the result, over the first n strings. */
  function Fold(op: Op, srcs: seq<seq<Byte>>, j: nat, n: nat): Byte
    requires 1 <= n <= |srcs|
  {
    if n == 1 then
      var b := ByteAt(srcs[0], j);
      if op.Not? then !b else b
    else OnBytes(op, Fold(op, srcs, j, n - 1), ByteAt(srcs[n - 1], j))
  }

  function Longest(srcs: seq<seq<Byte>>): nat {
    if srcs == [] then 0
    else
      var rest, last := Longest(srcs[..|srcs| - 1]), |srcs[|srcs| - 1]|;
      if last > rest then last else rest
  }

  /** What BITOP stores. */
  function Result(op: Op, srcs: seq<seq<Byte>>): seq<Byte>
    requires srcs != []
  {
    seq(Longest(srcs), j requires 0 <= j < Longest(srcs) => Fold(op, srcs, j, |srcs|))
  }

  // ----- words

  /** Eight bytes as a word, and byte k of a word. */
  function Load(b0: Byte, b1: Byte, b2: Byte, b3: Byte, b4: Byte, b5: Byte, b6: Byte, b7: Byte): bv64 {
    (b0 as bv64) | ((b1 as bv64) << 8) | ((b2 as bv64) << 16) | ((b3 as bv64) << 24)
    | ((b4 as bv64) << 32) | ((b5 as bv64) << 40) | ((b6 as bv64) << 48) | ((b7 as bv64) << 56)
  }

  function ByteOf(x: bv64, k: nat): Byte {
    if k == 0 then (x & 0xff) as Byte else if k == 1 then ((x >> 8) & 0xff) as Byte
    else if k == 2 then ((x >> 16) & 0xff) as Byte else if k == 3 then ((x >> 24) & 0xff) as Byte
    else if k == 4 then ((x >> 32) & 0xff) as Byte else if k == 5 then ((x >> 40) & 0xff) as Byte
    else if k == 6 then ((x >> 48) & 0xff) as Byte else ((x >> 56) & 0xff) as Byte
  }

  lemma BytesOfLoad(b0: Byte, b1: Byte, b2: Byte, b3: Byte, b4: Byte, b5: Byte, b6: Byte, b7: Byte)
    ensures var w := Load(b0, b1, b2, b3, b4, b5, b6, b7);
            && ByteOf(w, 0) == b0 && ByteOf(w, 1) == b1 && ByteOf(w, 2) == b2 && ByteOf(w, 3) == b3
            && ByteOf(w, 4) == b4 && ByteOf(w, 5) == b5 && ByteOf(w, 6) == b6 && ByteOf(w, 7) == b7
  {
  }

  lemma AndLoadsRaw(a0: Byte, a1: Byte, a2: Byte, a3: Byte, a4: Byte, a5: Byte, a6: Byte, a7: Byte, b0: Byte,
                    b1: Byte, b2: Byte, b3: Byte, b4: Byte, b5: Byte, b6: Byte, b7: Byte)
    ensures Load(a0, a1, a2, a3, a4, a5, a6, a7) & Load(b0, b1, b2, b3, b4, b5, b6, b7)
         == Load(a0 & b0, a1 & b1, a2 & b2, a3 & b3, a4 & b4, a5 & b5, a6 & b6, a7 & b7)
  {
  }

  lemma AndLoads(a0: Byte, a1: Byte, a2: Byte, a3: Byte, a4: Byte, a5: Byte, a6: Byte, a7: Byte, b0: Byte,
                 b1: Byte, b2: Byte, b3: Byte, b4: Byte, b5: Byte, b6: Byte, b7: Byte)
    ensures OnWords(And, Load(a0, a1, a2, a3, a4, a5, a6, a7), Load(b0, b1, b2, b3, b4, b5, b6, b7))
         == Load(OnBytes(And, a0, b0), OnBytes(And, a1, b1), OnBytes(And, a2, b2), OnBytes(And, a3, b3),
                 OnBytes(And, a4, b4), OnBytes(And, a5, b5), OnBytes(And, a6, b6), OnBytes(And, a7, b7))
  {
    hide Load;
    AndLoadsRaw(a0, a1, a2, a3, a4, a5, a6, a7, b0, b1, b2, b3, b4, b5, b6, b7);
  }

  lemma OrLoadsRaw(a0: Byte, a1: Byte, a2: Byte, a3: Byte, a4: Byte, a5: Byte, a6: Byte, a7: Byte, b0: Byte,
                   b1: Byte, b2: Byte, b3: Byte, b4: Byte, b5: Byte, b6: Byte, b7: Byte)
    ensures Load(a0, a1, a2, a3, a4, a5, a6, a7) | Load(b0, b1, b2, b3, b4, b5, b6, b7)
         == Load(a0 | b0, a1 | b1, a2 | b2, a3 | b3, a4 | b4, a5 | b5, a6 | b6, a7 | b7)
  {
  }

  lemma OrLoads(a0: Byte, a1: Byte, a2: Byte, a3: Byte, a4: Byte, a5: Byte, a6: Byte, a7: Byte, b0: Byte, b1: Byte,
                b2: Byte, b3: Byte, b4: Byte, b5: Byte, b6: Byte, b7: Byte)
    ensures OnWords(Or, Load(a0, a1, a2, a3, a4, a5, a6, a7), Load(b0, b1, b2, b3, b4, b5, b6, b7))
         == Load(OnBytes(Or, a0, b0), OnBytes(Or, a1, b1), OnBytes(Or, a2, b2), OnBytes(Or, a3, b3),
                 OnBytes(Or, a4, b4), OnBytes(Or, a5, b5), OnBytes(Or, a6, b6), OnBytes(Or, a7, b7))
  {
    hide Load;
    OrLoadsRaw(a0, a1, a2, a3, a4, a5, a6, a7, b0, b1, b2, b3, b4, b5, b6, b7);
  }

  lemma XorLoadsRaw(a0: Byte, a1: Byte, a2: Byte, a3: Byte, a4: Byte, a5: Byte, a6: Byte, a7: Byte, b0: Byte,
                    b1: Byte, b2: Byte, b3: Byte, b4: Byte, b5: Byte, b6: Byte, b7: Byte)
    ensures Load(a0, a1, a2, a3, a4, a5, a6, a7) ^ Load(b0, b1, b2, b3, b4, b5, b6, b7)
         == Load(a0 ^ b0, a1 ^ b1, a2 ^ b2, a3 ^ b3, a4 ^ b4, a5 ^ b5, a6 ^ b6, a7 ^ b7)
  {
  }

  lemma XorLoads(a0: Byte, a1: Byte, a2: Byte, a3: Byte, a4: Byte, a5: Byte, a6: Byte, a7: Byte, b0: Byte,
                 b1: Byte, b2: Byte, b3: Byte, b4: Byte, b5: Byte, b6: Byte, b7: Byte)
    ensures OnWords(Xor, Load(a0, a1, a2, a3, a4, a5, a6, a7), Load(b0, b1, b2, b3, b4, b5, b6, b7))
         == Load(OnBytes(Xor, a0, b0), OnBytes(Xor, a1, b1), OnBytes(Xor, a2, b2), OnBytes(Xor, a3, b3),
                 OnBytes(Xor, a4, b4), OnBytes(Xor, a5, b5), OnBytes(Xor, a6, b6), OnBytes(Xor, a7, b7))
  {
    hide Load;
    XorLoadsRaw(a0, a1, a2, a3, a4, a5, a6, a7, b0, b1, b2, b3, b4, b5, b6, b7);
  }

  lemma NotLoadRaw(a0: Byte, a1: Byte, a2: Byte, a3: Byte, a4: Byte, a5: Byte, a6: Byte, a7: Byte)
    ensures !Load(a0, a1, a2, a3, a4, a5, a6, a7) == Load(!a0, !a1, !a2, !a3, !a4, !a5, !a6, !a7)
  {
  }

  lemma NotLoad(a0: Byte, a1: Byte, a2: Byte, a3: Byte, a4: Byte, a5: Byte, a6: Byte, a7: Byte, b0: Byte, b1: Byte,
                b2: Byte, b3: Byte, b4: Byte, b5: Byte, b6: Byte, b7: Byte)
    ensures OnWords(Not, Load(a0, a1, a2, a3, a4, a5, a6, a7), Load(b0, b1, b2, b3, b4, b5, b6, b7))
         == Load(OnBytes(Not, a0, b0), OnBytes(Not, a1, b1), OnBytes(Not, a2, b2), OnBytes(Not, a3, b3),
                 OnBytes(Not, a4, b4), OnBytes(Not, a5, b5), OnBytes(Not, a6, b6), OnBytes(Not, a7, b7))
  {
    hide Load;
    NotLoadRaw(a0, a1, a2, a3, a4, a5, a6, a7);
  }

  /** A bitwise operation on words works on each byte by itself. */
  lemma OpLoads(op: Op, a0: Byte, a1: Byte, a2: Byte, a3: Byte, a4: Byte, a5: Byte, a6: Byte, a7: Byte, b0: Byte,
                b1: Byte, b2: Byte, b3: Byte, b4: Byte, b5: Byte, b6: Byte, b7: Byte)
    ensures OnWords(op, Load(a0, a1, a2, a3, a4, a5, a6, a7), Load(b0, b1, b2, b3, b4, b5, b6, b7))
         == Load(OnBytes(op, a0, b0), OnBytes(op, a1, b1), OnBytes(op, a2, b2), OnBytes(op, a3, b3),
                 OnBytes(op, a4, b4), OnBytes(op, a5, b5), OnBytes(op, a6, b6), OnBytes(op, a7, b7))
  {
    hide Load, OnWords, OnBytes;
    match op
    case And => AndLoads(a0, a1, a2, a3, a4, a5, a6, a7, b0, b1, b2, b3, b4, b5, b6, b7);
    case Or => OrLoads(a0, a1, a2, a3, a4, a5, a6, a7, b0, b1, b2, b3, b4, b5, b6, b7);
    case Xor => XorLoads(a0, a1, a2, a3, a4, a5, a6, a7, b0, b1, b2, b3, b4, b5, b6, b7);
    case Not => NotLoad(a0, a1, a2, a3, a4, a5, a6, a7, b0, b1, b2, b3, b4, b5, b6, b7);
  }

  function WordAt(s: seq<Byte>): bv64
    requires |s| == 8
  {
    Load(s[0], s[1], s[2], s[3], s[4], s[5], s[6], s[7])
  }

  lemma WordBytes(op: Op, a: seq<Byte>, b: seq<Byte>)
    requires |a| == |b| == 8
    ensures forall k :: 0 <= k < 8 ==> ByteOf(OnWords(op, WordAt(a), WordAt(b)), k) == OnBytes(op, a[k], b[k])
  {
    hide Load, ByteOf, OnWords, OnBytes;
    OpLoads(op, a[0], a[1], a[2], a[3], a[4], a[5], a[6], a[7], b[0], b[1], b[2], b[3], b[4], b[5], b[6], b[7]);
    BytesOfLoad(OnBytes(op, a[0], b[0]), OnBytes(op, a[1], b[1]), OnBytes(op, a[2], b[2]), OnBytes(op, a[3], b[3]),
                OnBytes(op, a[4], b[4]), OnBytes(op, a[5], b[5]), OnBytes(op, a[6], b[6]), OnBytes(op, a[7], b[7]));
  }

  // ----- the program

  /** One of the statements of the fast path: a word of the result combined with a word of a source. */
  method WordStep(op: Op, res: array<Byte>, at: nat, word: seq<Byte>)
    requires at + 8 <= res.Length && |word| == 8
    modifies res
    ensures forall t :: 0 <= t < res.Length ==>
              res[t] == if at <= t < at + 8 then OnBytes(op, old(res[t]), word[t - at]) else old(res[t])
  {
    hide OnBytes, OnWords, ByteOf, WordAt;
    ghost var before := res[at..at + 8];
    WordBytes(op, res[at..at + 8], word);
    var x := OnWords(op, WordAt(res[at..at + 8]), WordAt(word));
    for k := 0 to 8
      invariant forall t :: 0 <= t < res.Length ==>
                  res[t] == if at <= t < at + k then OnBytes(op, before[t - at], word[t - at]) else old(res[t])
    {
      res[at + k] := ByteOf(x, k);
    }
  }

  /** Four words: 32 bytes of the result combined with 32 bytes of a source. */
  method FourWords(op: Op, res: array<Byte>, at: nat, src: seq<Byte>)
    requires at + 32 <= res.Length && at + 32 <= |src|
    modifies res
    ensures forall t :: 0 <= t < res.Length ==>
              res[t] == if at <= t < at + 32 then OnBytes(op, old(res[t]), src[t]) else old(res[t])
  {
    hide OnBytes;
    for w := 0 to 4
      invariant forall t :: 0 <= t < res.Length ==>
                  res[t] == if at <= t < at + 8 * w then OnBytes(op, old(res[t]), src[t]) else old(res[t])
    {
      WordStep(op, res, at + 8 * w, src[at + 8 * w..at + 8 * w + 8]);
    }
  }

  /** One round of the fast path: the 32 bytes at at, over all sources. */
  method FastRound(op: Op, res: array<Byte>, at: nat, srcs: seq<seq<Byte>>)
    requires srcs != [] && (op.Not? ==> |srcs| == 1) && at + 32 <= res.Length
    requires forall i :: 0 <= i < |srcs| ==> at + 32 <= |srcs[i]|
    requires forall t :: at <= t < at + 32 ==> res[t] == srcs[0][t]
    modifies res
    ensures forall t :: 0 <= t < res.Length ==>
              res[t] == if at <= t < at + 32 then Fold(op, srcs, t, |srcs|) else old(res[t])
  {
    hide OnBytes;
    if op.Not? {
      FourWords(op, res, at, srcs[0]);
      NotIsFold(srcs);
    } else {
      for i := 1 to |srcs|
        invariant forall t :: 0 <= t < res.Length ==>
                    res[t] == if at <= t < at + 32 then Fold(op, srcs, t, i) else old(res[t])
      {
        FourWords(op, res, at, srcs[i]);
      }
    }
  }

  lemma NotIsFold(srcs: seq<seq<Byte>>)
    requires |srcs| == 1
    ensures forall t: nat, b :: t < |srcs[0]| ==> OnBytes(Not, srcs[0][t], b) == Fold(Not, srcs, t, 1)
  {
  }

  lemma LongestSnoc(srcs: seq<seq<Byte>>, i: nat)
    requires i < |srcs|
    ensures Longest(srcs[..i + 1]) == if |srcs[i]| > Longest(srcs[..i]) then |srcs[i]| else Longest(srcs[..i])
  {
    assert srcs[..i + 1][..i] == srcs[..i];
  }

  /** The loop over the keys: the longest and the shortest length; a missing key is an empty string. */
  method Lengths(srcs: seq<seq<Byte>>) returns (maxlen: nat, minlen: nat)
    requires srcs != []
    ensures maxlen == Longest(srcs)
    ensures minlen <= maxlen && forall i :: 0 <= i < |srcs| ==> minlen <= |srcs[i]|
  {
    maxlen, minlen := 0, 0;
    for j := 0 to |srcs|
      invariant maxlen == Longest(srcs[..j]) && (j > 0 ==> minlen <= maxlen)
      invariant forall i :: 0 <= i < j ==> minlen <= |srcs[i]|
    {
      LongestSnoc(srcs, j);
      var len := |srcs[j]|;
      if len > maxlen { maxlen := len; }
      if j == 0 || len < minlen { minlen := len; }
    }
    assert srcs[..|srcs|] == srcs;
  }

  /** Once AND reached zero, or OR all ones, the remaining strings cannot change the byte. */
  lemma {:induction false} Settled(op: Op, srcs: seq<seq<Byte>>, j: nat, i: nat, n: nat)
    requires 1 <= i <= n <= |srcs|
    requires (op.And? && Fold(op, srcs, j, i) == 0) || (op.Or? && Fold(op, srcs, j, i) == 0xff)
    ensures Fold(op, srcs, j, n) == Fold(op, srcs, j, i)
    decreases n
  {
    hide OnBytes;
    if i < n {
      Settled(op, srcs, j, i, n - 1);
      Absorbs(op, ByteAt(srcs[n - 1], j));
    }
  }

  lemma Absorbs(op: Op, b: Byte)
    ensures OnBytes(And, 0, b) == 0 && OnBytes(Or, 0xff, b) == 0xff
  {
  }

  /** The bytewise loop body with its early exit. */
  method OutputByte(op: Op, srcs: seq<seq<Byte>>, j: nat) returns (output: Byte)
    requires srcs != [] && (op.Not? ==> |srcs| == 1)
    ensures output == Fold(op, srcs, j, |srcs|)
  {
    hide OnBytes;
    output := ByteAt(srcs[0], j);
    if op.Not? {
      output := !output;
    }
    for i := 1 to |srcs|
      invariant output == Fold(op, srcs, j, i)
    {
      output := OnBytes(op, output, ByteAt(srcs[i], j));
      var skip := (op.And? && output == 0) || (op.Or? && output == 0xff);
      if skip {
        Settled(op, srcs, j, i + 1, |srcs|);
        return;
      }
    }
  }

  /** The fast path: how many bytes it finished, and that they are right. */
  method FastPath(op: Op, srcs: seq<seq<Byte>>, res: array<Byte>, minlen: nat) returns (j: nat)
    requires srcs != [] && (op.Not? ==> |srcs| == 1) && minlen <= res.Length
    requires forall i :: 0 <= i < |srcs| ==> minlen <= |srcs[i]|
    modifies res
    ensures j <= minlen && forall t: nat :: t < j ==> res[t] == Fold(op, srcs, t, |srcs|)
  {
    hide Fold;
    j := 0;
    if minlen < 32 || |srcs| > 16 { return; }
    for t := 0 to minlen
      invariant forall k :: 0 <= k < t ==> res[k] == srcs[0][k]
    {
      res[t] := srcs[0][t];
    }
    var left := minlen;
    while left >= 32
      invariant j + left == minlen
      invariant forall t: nat :: t < j ==> res[t] == Fold(op, srcs, t, |srcs|)
      invariant forall t :: j <= t < minlen ==> res[t] == srcs[0][t]
    {
      FastRound(op, res, j, srcs);
      j := j + 32;
      left := left - 32;
    }
  }

  /** bitopCommand, between the lookup of the keys and the storing of the result. */
  method BitopBytes(op: Op, srcs: seq<seq<Byte>>) returns (r: seq<Byte>)
    requires srcs != [] && (op.Not? ==> |srcs| == 1)
    ensures r == Result(op, srcs)
  {
    hide Fold;
    var maxlen, minlen := Lengths(srcs);
    var res := new Byte[maxlen](_ => 0);
    var j := FastPath(op, srcs, res, minlen);
    while j < maxlen
      invariant j <= maxlen && forall t: nat :: t < j ==> res[t] == Fold(op, srcs, t, |srcs|)
    {
      var output := OutputByte(op, srcs, j);
      res[j] := output;
      j := j + 1;
    }
    r := res[..];
  }
}
