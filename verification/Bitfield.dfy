/**
 BITFIELD: integers of any width up to 64 bits at any bit offset of a string, and the
 arithmetic of SET and INCRBY with its three ways to treat overflow. Machine integers are
 numbers here; where C wraps or casts, the model says so.
 */
module Bitfield {
  import opened Prelude
  import opened Bitpos

  // ----- numbers and bits

  const TWO63: nat := 0x8000_0000_0000_0000
  const TWO64: nat := 0x1_0000_0000_0000_0000

  lemma Pow2Of64()
    ensures Pow2(63) == TWO63 && Pow2(64) == TWO64
  {
    assert Pow2(8) == 0x100;
    assert Pow2(16) == 0x100 * Pow2(8);
    assert Pow2(24) == 0x100 * Pow2(16);
    assert Pow2(32) == 0x100 * Pow2(24);
    assert Pow2(40) == 0x100 * Pow2(32);
    assert Pow2(48) == 0x100 * Pow2(40);
    assert Pow2(56) == 0x100 * Pow2(48);
    assert Pow2(63) == 0x80 * Pow2(56);
  }

  lemma {:induction false} Pow2Mono(m: nat, n: nat)
    requires m <= n
    ensures Pow2(m) <= Pow2(n)
  {
    if m < n {
      Pow2Mono(m, n - 1);
    }
  }

  /** The conversions between int64_t and uint64_t. */
  function ToUnsigned(v: int): (r: nat)
    ensures r < TWO64
  {
    v % TWO64
  }

  function ToSigned(v: int): (r: int)
    ensures 0 - TWO63 <= r < TWO63
  {
    var u := v % TWO64;
    if u < TWO63 then u else u - TWO64
  }

  /** Bit k of a number, from the lowest. */
  predicate NumberBit(v: nat, k: nat) {
    (v / Pow2(k)) % 2 == 1
  }

  /** The number a row of bits spells, most significant first. */
  function FromBits(bits: seq<bool>): (r: nat) {
    if bits == [] then 0 else 2 * FromBits(bits[..|bits| - 1]) + if bits[|bits| - 1] then 1 else 0
  }

  lemma {:induction false} FromBitsFits(bits: seq<bool>)
    ensures FromBits(bits) < Pow2(|bits|)
  {
    if bits != [] {
      FromBitsFits(bits[..|bits| - 1]);
    }
  }

  /** The n lowest bits of a number, most significant first. */
  function ToBits(v: nat, n: nat): (r: seq<bool>)
    ensures |r| == n
  {
    if n == 0 then [] else ToBits(v / 2, n - 1) + [v % 2 == 1]
  }

  /** Writing a number into n bits and reading it back reduces it to the width. */
  lemma {:induction false} BitsRoundTrip(v: nat, n: nat)
    ensures FromBits(ToBits(v, n)) == v % Pow2(n)
  {
    if n > 0 {
      BitsRoundTrip(v / 2, n - 1);
      assert ToBits(v, n)[..n - 1] == ToBits(v / 2, n - 1);
      HalfModulo(v, Pow2(n - 1));
    }
  }

  lemma HalfModulo(v: nat, m: nat)
    requires m >= 1
    ensures v % (2 * m) == 2 * ((v / 2) % m) + v % 2
  {
    var q, r := (v / 2) / m, (v / 2) % m;
    assert v == 2 * (m * q + r) + v % 2;
    assert v == (2 * m) * q + (2 * r + v % 2) by {
      assert 2 * (m * q) == (2 * m) * q;
    }
    ModuloIs(v, 2 * m, q, 2 * r + v % 2);
  }

  lemma ModuloIs(v: nat, m: nat, q: nat, r: nat)
    requires v == m * q + r && r < m
    ensures v % m == r && v / m == q
  {
    var k := v / m;
    assert v == m * k + v % m;
    assert m * (k - q) == r - v % m;
    SmallMultiple(m, k - q);
  }

  lemma SmallMultiple(m: nat, d: int)
    requires 0 - m < m * d < m
    ensures d == 0
  {
    if d > 0 {
      MultipleGrows(m, d);
    }
  }

  lemma MultipleGrows(m: nat, d: nat)
    requires d >= 1
    ensures m * d >= m
  {
  }

  /** Bit j of the row is bit n - 1 - j of the number. */
  lemma {:induction false} ToBitsAt(v: nat, n: nat, j: nat)
    requires j < n
    ensures ToBits(v, n)[j] == NumberBit(v, n - 1 - j)
  {
    if j < n - 1 {
      ToBitsAt(v / 2, n - 1, j);
      DivideTwice(v, Pow2(n - 2 - j));
    }
  }

  lemma DivideTwice(v: nat, m: nat)
    requires m >= 1
    ensures (v / 2) / m == v / (2 * m)
  {
    var q, r := (v / 2) / m, (v / 2) % m;
    assert v == 2 * (m * q + r) + v % 2;
    assert v == (2 * m) * q + (2 * r + v % 2) by {
      assert 2 * (m * q) == (2 * m) * q;
    }
    ModuloIs(v, 2 * m, q, 2 * r + v % 2);
  }

  // ----- bits of a buffer

  function Mask(t: nat): Byte {
    if t == 0 then 0x80 else if t == 1 then 0x40 else if t == 2 then 0x20 else if t == 3 then 0x10
    else if t == 4 then 0x08 else if t == 5 then 0x04 else if t == 6 then 0x02 else 0x01
  }

  /** One round of setUnsignedBitfield on its byte. */
  function PutBit(b: Byte, t: nat, v: bool): Byte {
    if v then (b & !Mask(t)) | Mask(t) else b & !Mask(t)
  }

  lemma PutTests(b: Byte, t: nat, v: bool, u: nat)
    requires t < 8 && u < 8
    ensures TestBit(PutBit(b, t, v), u) == if u == t then v else TestBit(b, u)
  {
  }

  /** The bits of a string, from the left, zero extended. */
  predicate BitOf(s: seq<Byte>, i: nat) {
    i < 8 * |s| && BitAt(s, i)
  }

  function Row(s: seq<Byte>, offset: nat, n: nat): (r: seq<bool>)
    ensures |r| == n && forall j :: 0 <= j < n ==> r[j] == BitOf(s, offset + j)
  {
    seq(n, j requires 0 <= j < n => BitOf(s, offset + j))
  }

  /** The unsigned integer of n bits at an offset of a zero-extended string. */
  function Unsigned(s: seq<Byte>, offset: nat, n: nat): nat {
    FromBits(Row(s, offset, n))
  }

  /** The signed one, in two's complement. */
  function Signed(s: seq<Byte>, offset: nat, n: nat): int
    requires n >= 1
  {
    var u := Unsigned(s, offset, n);
    if u < Pow2(n - 1) then u else u - Pow2(n)
  }

  lemma RowSnoc(s: seq<Byte>, offset: nat, n: nat)
    ensures Row(s, offset, n + 1) == Row(s, offset, n) + [BitOf(s, offset + n)]
  {
  }

  lemma UnsignedStep(s: seq<Byte>, offset: nat, n: nat)
    ensures Unsigned(s, offset, n + 1) == 2 * Unsigned(s, offset, n) + if BitOf(s, offset + n) then 1 else 0
  {
    hide BitOf;
    RowSnoc(s, offset, n);
    assert (Row(s, offset, n) + [BitOf(s, offset + n)])[..n] == Row(s, offset, n);
  }

  /** getUnsignedBitfield, on a buffer that holds the bits asked for. */
  method GetUnsignedBitfield(p: seq<Byte>, start: nat, bits: nat) returns (value: nat)
    requires start + bits <= 8 * |p| && bits <= 64
    ensures value == Unsigned(p, start, bits) && value < Pow2(bits)
  {
    hide BitOf, Row, FromBits;
    var offset := start;
    value := 0;
    NothingRead(p, start);
    for j := 0 to bits
      invariant offset == start + j && value == Unsigned(p, start, j)
    {
      var byteval := p[offset / 8];
      var bitval := TestBit(byteval, offset % 8);
      UnsignedStep(p, start, j);
      assert BitOf(p, offset) == bitval by { BitOfByte(p, offset); }
      value := 2 * value + if bitval then 1 else 0;
      offset := offset + 1;
    }
    FromBitsFits(Row(p, start, bits));
  }

  lemma NothingRead(s: seq<Byte>, offset: nat)
    ensures Unsigned(s, offset, 0) == 0
  {
  }

  lemma BitOfByte(s: seq<Byte>, i: nat)
    requires i < 8 * |s|
    ensures BitOf(s, i) == TestBit(s[i / 8], i % 8)
  {
  }

  /** getSignedBitfield: the sign bit propagated to the higher bits of an int64_t. */
  method GetSignedBitfield(p: seq<Byte>, start: nat, bits: nat) returns (value: int)
    requires start + bits <= 8 * |p| && 1 <= bits <= 64
    ensures value == Signed(p, start, bits) && 0 - Pow2(bits - 1) <= value < Pow2(bits - 1)
  {
    hide Unsigned, Pow2, ToSigned;
    var u := GetUnsignedBitfield(p, start, bits);
    WidthFits(bits);
    Differences(u);
    value := ToSigned(u);
    if bits < 64 && u >= Pow2(bits - 1) {
      Differences(u + (TWO64 - Pow2(bits)));
      value := ToSigned(u + (TWO64 - Pow2(bits)));
    }
  }

  // ----- writing

  /** What setUnsignedBitfield leaves: its bits replaced, every other bit as it was. */
  ghost predicate Written(before: seq<Byte>, after: seq<Byte>, offset: nat, row: seq<bool>) {
    && |after| == |before|
    && forall i: nat :: i < 8 * |before| ==>
         BitAt(after, i) == if offset <= i < offset + |row| then row[i - offset] else BitAt(before, i)
  }

  lemma OneMoreWritten(before: seq<Byte>, s: seq<Byte>, offset: nat, row: seq<bool>, v: bool)
    requires Written(before, s, offset, row) && offset + |row| < 8 * |s|
    ensures var i := offset + |row|;
            Written(before, s[i / 8 := PutBit(s[i / 8], i % 8, v)], offset, row + [v])
  {
    hide TestBit, PutBit;
    var at := offset + |row|;
    var after := s[at / 8 := PutBit(s[at / 8], at % 8, v)];
    forall i: nat | i < 8 * |before|
      ensures BitAt(after, i)
              == if offset <= i < offset + |row| + 1 then (row + [v])[i - offset] else BitAt(before, i)
    {
      PutTests(s[at / 8], at % 8, v, i % 8);
      assert i == 8 * (i / 8) + i % 8 && at == 8 * (at / 8) + at % 8;
      assert BitAt(after, i) == if i == at then v else BitAt(s, i);
    }
  }

  /** The buffer with a row of bits written at an offset. */
  function WriteRow(s: seq<Byte>, offset: nat, row: seq<bool>): (r: seq<Byte>)
    requires offset + |row| <= 8 * |s|
    ensures |r| == |s|
    decreases |row|
  {
    if row == [] then s
    else
      var n := |row| - 1;
      var s1, i := WriteRow(s, offset, row[..n]), offset + n;
      s1[i / 8 := PutBit(s1[i / 8], i % 8, row[n])]
  }

  lemma {:induction false} WriteRowWrites(s: seq<Byte>, offset: nat, row: seq<bool>)
    requires offset + |row| <= 8 * |s|
    ensures Written(s, WriteRow(s, offset, row), offset, row)
    decreases |row|
  {
    hide Written, PutBit;
    if row == [] {
      NothingWritten(s, offset);
    } else {
      var n := |row| - 1;
      WriteRowWrites(s, offset, row[..n]);
      OneMoreWritten(s, WriteRow(s, offset, row[..n]), offset, row[..n], row[n]);
      assert row[..n] + [row[n]] == row;
    }
  }

  lemma WriteRowSnoc(s: seq<Byte>, offset: nat, row: seq<bool>, j: nat)
    requires j < |row| && offset + |row| <= 8 * |s|
    ensures var s1, i := WriteRow(s, offset, row[..j]), offset + j;
            WriteRow(s, offset, row[..j + 1]) == s1[i / 8 := PutBit(s1[i / 8], i % 8, row[j])]
  {
    hide PutBit;
    assert row[..j + 1][..j] == row[..j];
  }

  /** setUnsignedBitfield: the low bits of value, most significant first, into the bits at offset. */
  method SetUnsignedBitfield(p: array<Byte>, start: nat, bits: nat, value: nat)
    requires start + bits <= 8 * p.Length && bits <= 64
    modifies p
    ensures p[..] == WriteRow(old(p[..]), start, ToBits(value, bits))
    ensures Written(old(p[..]), p[..], start, ToBits(value, bits))
  {
    hide PutBit, NumberBit, Written;
    var offset := start;
    ghost var before, row := p[..], ToBits(value, bits);
    for j := 0 to bits
      invariant offset == start + j && p[..] == WriteRow(before, start, row[..j])
    {
      var bitval := NumberBit(value, bits - 1 - j);
      ToBitsAt(value, bits, j);
      WriteRowSnoc(before, start, row, j);
      ghost var s := p[..];
      p[offset / 8] := PutBit(p[offset / 8], offset % 8, bitval);
      assert p[..] == s[offset / 8 := PutBit(s[offset / 8], offset % 8, bitval)];
      offset := offset + 1;
    }
    assert row[..bits] == row;
    WriteRowWrites(before, start, row);
  }

  lemma NothingWritten(s: seq<Byte>, offset: nat)
    ensures Written(s, s, offset, [])
  {
  }

  /** Reading back what was written gives the value reduced to the width. */
  lemma GetAfterSet(before: seq<Byte>, after: seq<Byte>, offset: nat, n: nat, v: nat)
    requires Written(before, after, offset, ToBits(v, n)) && offset + n <= 8 * |before|
    ensures Unsigned(after, offset, n) == v % Pow2(n)
  {
    hide BitAt, ToBits;
    assert Row(after, offset, n) == ToBits(v, n);
    BitsRoundTrip(v, n);
  }

  /** A field that does not touch the one written reads as before. */
  lemma OtherFieldsKept(before: seq<Byte>, after: seq<Byte>, offset: nat, row: seq<bool>, other: nat, n: nat)
    requires Written(before, after, offset, row) && (other + n <= offset || offset + |row| <= other)
    ensures Unsigned(after, other, n) == Unsigned(before, other, n)
  {
    hide BitAt;
    assert Row(after, other, n) == Row(before, other, n);
  }

  // ----- overflow

  datatype Overflow = Wrap | Sat | Fail

  /** What an overflow check returns; limit means something only when code is not zero and the type is not Fail. */
  datatype Check = Check(code: int, limit: int)

  predicate IsInt64(v: int) {
    0 - TWO63 <= v < TWO63
  }

  function MaxOf(bits: nat, sign: bool): nat
    requires bits >= 1
  {
    if sign then Pow2(bits - 1) - 1 else Pow2(bits) - 1
  }

  function MinOf(bits: nat, sign: bool): int
    requires bits >= 1
  {
    if sign then 0 - Pow2(bits - 1) else 0
  }

  predicate InRange(v: int, bits: nat, sign: bool)
    requires bits >= 1
  {
    MinOf(bits, sign) <= v <= MaxOf(bits, sign)
  }

  /** The representative of v modulo the width that the type can hold. */
  function Residue(v: int, bits: nat, sign: bool): int
    requires bits >= 1
  {
    var r := v % Pow2(bits);
    if sign && r >= Pow2(bits - 1) then r - Pow2(bits) else r
  }

  /** The first and the second condition of checkUnsignedBitfieldOverflow, and its wrapped result. */
  predicate AboveUnsigned(value: nat, incr: int, bits: nat)
    requires bits >= 1
  {
    var max := MaxOf(bits, false);
    value > max || (incr > 0 && incr > ToSigned(max - value))
  }

  predicate BelowUnsigned(value: nat, incr: int) {
    incr < 0 && incr < ToSigned(0 - value)
  }

  function WrapUnsigned(r: int, bits: nat): int {
    ToUnsigned(r) % Pow2(bits)
  }

  /** checkUnsignedBitfieldOverflow, for the widths BITFIELD accepts. */
  function CheckUnsigned(value: nat, incr: int, bits: nat, ow: Overflow): Check
    requires bits >= 1
  {
    if AboveUnsigned(value, incr, bits) then
      Check(1, if ow.Wrap? then WrapUnsigned(value + incr, bits) else MaxOf(bits, false))
    else if BelowUnsigned(value, incr) then
      if ow.Wrap? then Check(1, WrapUnsigned(value + incr, bits)) else Check(-1, 0)
    else Check(0, 0)
  }

  /** The same for checkSignedBitfieldOverflow. */
  predicate AboveSigned(value: int, incr: int, bits: nat)
    requires bits >= 1
  {
    var max := MaxOf(bits, true);
    var maxincr := ToSigned(max - value);
    value > max || (bits != 64 && incr > maxincr) || (value >= 0 && incr > 0 && incr > maxincr)
  }

  predicate BelowSigned(value: int, incr: int, bits: nat)
    requires bits >= 1
  {
    var min := 0 - MaxOf(bits, true) - 1;
    var minincr := ToSigned(min - value);
    value < min || (bits != 64 && incr < minincr) || (value < 0 && incr < 0 && incr < minincr)
  }

  function WrapSigned(r: int, bits: nat): int
    requires bits >= 1
  {
    var c := ToUnsigned(r);
    var low := c % Pow2(bits);
    if bits == 64 then ToSigned(c)
    else if low >= Pow2(bits - 1) then ToSigned(low + (TWO64 - Pow2(bits)))
    else low
  }

  /** checkSignedBitfieldOverflow */
  function CheckSigned(value: int, incr: int, bits: nat, ow: Overflow): Check
    requires bits >= 1
  {
    if AboveSigned(value, incr, bits) then
      Check(1, if ow.Wrap? then WrapSigned(value + incr, bits) else MaxOf(bits, true))
    else if BelowSigned(value, incr, bits) then
      if ow.Wrap? then Check(1, WrapSigned(value + incr, bits)) else Check(-1, 0 - MaxOf(bits, true) - 1)
    else Check(0, 0)
  }

  /** 2^64 is a multiple of every width up to 64, so reducing twice is reducing once. */
  lemma {:induction false} ReduceTwice(v: int, bits: nat)
    requires bits <= 64
    ensures (v % TWO64) % Pow2(bits) == v % Pow2(bits)
  {
    Pow2Of64();
    Pow2Product(bits, 64 - bits);
    var m, k, q := Pow2(bits), Pow2(64 - bits), v / TWO64;
    assert v == TWO64 * q + v % TWO64;
    assert TWO64 * q == m * (k * q) by { Regroup(m, k, q); }
    ModuloShift(v % TWO64, m, k * q);
  }

  lemma Regroup(m: nat, k: nat, q: int)
    ensures (m * k) * q == m * (k * q)
  {
  }

  lemma {:induction false} Pow2Product(a: nat, b: nat)
    ensures Pow2(a) * Pow2(b) == Pow2(a + b)
  {
    if a > 0 {
      Pow2Product(a - 1, b);
      Regroup(2, Pow2(a - 1), Pow2(b));
    }
  }

  lemma ModuloShift(r: int, m: nat, d: int)
    requires m >= 1
    ensures (r + m * d) % m == r % m
  {
    var q1, q2 := r / m, (r + m * d) / m;
    assert r == m * q1 + r % m;
    assert r + m * d == m * q2 + (r + m * d) % m;
    assert m * (q2 - q1 - d) == r % m - (r + m * d) % m;
    SmallMultiple(m, q2 - q1 - d);
  }

  /** The values a width can hold fit the machine integers. */
  lemma WidthFits(bits: nat)
    requires 1 <= bits <= 64
    ensures Pow2(bits) == 2 * Pow2(bits - 1)
    ensures Pow2(bits - 1) <= TWO63 && Pow2(bits) <= TWO64
    ensures bits <= 63 ==> Pow2(bits) <= TWO63
    ensures bits == 64 ==> Pow2(bits - 1) == TWO63
    ensures bits <= 63 ==> 2 * Pow2(bits - 1) <= TWO63
  {
    Pow2Of64();
    Pow2Mono(bits, 64);
    Pow2Mono(bits - 1, 63);
    if bits <= 63 {
      Pow2Mono(bits, 63);
    }
  }

  /** A difference that fits is exact; one too large comes out negative. */
  lemma Differences(v: int)
    ensures IsInt64(v) ==> ToSigned(v) == v
    ensures TWO63 <= v < TWO64 ==> ToSigned(v) == v - TWO64 < 0
  {
  }

  lemma UnsignedConditions(value: nat, incr: int, bits: nat)
    requires 1 <= bits <= 63 && IsInt64(incr) && InRange(value, bits, false)
    ensures AboveUnsigned(value, incr, bits) <==> value + incr > MaxOf(bits, false)
    ensures BelowUnsigned(value, incr) <==> value + incr < 0
  {
    hide Pow2, ToSigned;
    WidthFits(bits);
    Differences(MaxOf(bits, false) - value);
    Differences(0 - value);
  }

  lemma UnsignedWraps(r: int, bits: nat)
    requires 1 <= bits <= 64
    ensures WrapUnsigned(r, bits) == Residue(r, bits, false)
  {
    hide Pow2;
    ReduceTwice(r, bits);
  }

  /** The unsigned check is not zero exactly when the true result does not fit, and its limits are right. */
  lemma UnsignedIncrement(value: nat, incr: int, bits: nat, ow: Overflow)
    requires 1 <= bits <= 63 && IsInt64(incr) && InRange(value, bits, false)
    ensures var check, r := CheckUnsigned(value, incr, bits, ow), value + incr;
            && (check.code != 0 <==> !InRange(r, bits, false))
            && (check.code != 0 && ow.Wrap? ==> check.limit == Residue(r, bits, false))
            && (check.code != 0 && ow.Sat? ==> check.limit == Clamp(r, bits, false))
  {
    hide AboveUnsigned, BelowUnsigned, WrapUnsigned, Residue, Pow2;
    UnsignedConditions(value, incr, bits);
    UnsignedWraps(value + incr, bits);
  }

  /** A plain SET: any value above the maximum is refused, wrapped or cut to the maximum. */
  lemma UnsignedSet(value: nat, bits: nat, ow: Overflow)
    requires 1 <= bits <= 63
    ensures var check := CheckUnsigned(value, 0, bits, ow);
            && (check.code != 0 <==> !InRange(value, bits, false))
            && (check.code != 0 && ow.Wrap? ==> check.limit == Residue(value, bits, false))
            && (check.code != 0 && ow.Sat? ==> check.limit == MaxOf(bits, false))
  {
    hide WrapUnsigned, Residue, Pow2, ToSigned;
    UnsignedWraps(value, bits);
  }

  function Clamp(v: int, bits: nat, sign: bool): int
    requires bits >= 1
  {
    if v > MaxOf(bits, sign) then MaxOf(bits, sign) else if v < MinOf(bits, sign) then MinOf(bits, sign) else v
  }

  /** SET of a negative number into an unsigned field with SAT stores the maximum, not zero. */
  lemma UnsignedSetSaturatesIff(v: int, bits: nat)
    requires 1 <= bits <= 63 && IsInt64(v)
    ensures var value := ToUnsigned(v);
            var check := CheckUnsigned(value, 0, bits, Sat);
            (if check.code != 0 then check.limit else value) == Clamp(v, bits, false) <==> v >= 0
  {
    hide Pow2, CheckUnsigned;
    WidthFits(bits);
    UnsignedSet(ToUnsigned(v), bits, Sat);
  }

  lemma AboveSignedIs(value: int, incr: int, bits: nat)
    requires 1 <= bits <= 64 && IsInt64(incr) && InRange(value, bits, true)
    ensures AboveSigned(value, incr, bits) <==> value + incr > MaxOf(bits, true)
  {
    hide Pow2, ToSigned;
    WidthFits(bits);
    Differences(MaxOf(bits, true) - value);
  }

  lemma BelowSignedIs(value: int, incr: int, bits: nat)
    requires 1 <= bits <= 64 && IsInt64(incr) && InRange(value, bits, true)
    ensures BelowSigned(value, incr, bits) <==> value + incr < MinOf(bits, true)
  {
    hide Pow2, ToSigned;
    WidthFits(bits);
    Differences(MinOf(bits, true) - value);
  }

  /** The wrapped value of the signed check is the residue. */
  lemma SignedWraps(r: int, bits: nat)
    requires 1 <= bits <= 64
    ensures WrapSigned(r, bits) == Residue(r, bits, true)
  {
    hide Pow2;
    WidthFits(bits);
    Pow2Of64();
    ReduceTwice(r, bits);
  }

  /** The signed check, for a field and an increment. */
  lemma SignedIncrement(value: int, incr: int, bits: nat, ow: Overflow)
    requires 1 <= bits <= 64 && IsInt64(incr) && InRange(value, bits, true)
    ensures var check, r := CheckSigned(value, incr, bits, ow), value + incr;
            && (check.code != 0 <==> !InRange(r, bits, true))
            && (check.code != 0 && ow.Wrap? ==> check.limit == Residue(r, bits, true))
            && (check.code != 0 && ow.Sat? ==> check.limit == Clamp(r, bits, true))
  {
    hide AboveSigned, BelowSigned, WrapSigned, Residue, Pow2;
    AboveSignedIs(value, incr, bits);
    BelowSignedIs(value, incr, bits);
    SignedWraps(value + incr, bits);
  }

  /** The conditions for a plain SET, whose value may be any int64_t. */
  lemma SignedSetConditions(value: int, bits: nat)
    requires 1 <= bits <= 64 && IsInt64(value)
    ensures AboveSigned(value, 0, bits) <==>
              value > MaxOf(bits, true) || (bits != 64 && MaxOf(bits, true) - value >= TWO63)
    ensures !AboveSigned(value, 0, bits) ==> (BelowSigned(value, 0, bits) <==> value < MinOf(bits, true))
  {
    hide Pow2, ToSigned;
    WidthFits(bits);
    Differences(MaxOf(bits, true) - value);
    Differences(MinOf(bits, true) - value);
  }

  lemma SignedSet(value: int, bits: nat, ow: Overflow)
    requires 1 <= bits <= 64 && IsInt64(value)
    ensures var check := CheckSigned(value, 0, bits, ow);
            && (check.code != 0 <==> !InRange(value, bits, true))
            && (check.code != 0 && ow.Wrap? ==> check.limit == Residue(value, bits, true))
            && (check.code != 0 && ow.Sat? ==>
                  check.limit == if value > MaxOf(bits, true) || MaxOf(bits, true) - value >= TWO63
                                 then MaxOf(bits, true) else MinOf(bits, true))
  {
    hide AboveSigned, BelowSigned, WrapSigned, Residue, Pow2;
    WidthFits(bits);
    SignedSetConditions(value, bits);
    SignedWraps(value, bits);
  }

  /**
   SET with SAT into a signed field cuts to the nearer bound exactly when the distance to
   the maximum fits an int64_t; below that it stores the maximum.
   */
  lemma SignedSetSaturatesIff(value: int, bits: nat)
    requires 1 <= bits <= 64 && IsInt64(value)
    ensures var check := CheckSigned(value, 0, bits, Sat);
            (if check.code != 0 then check.limit else value) == Clamp(value, bits, true)
            <==> MaxOf(bits, true) - value < TWO63 || InRange(value, bits, true)
  {
    hide Pow2, CheckSigned;
    WidthFits(bits);
    SignedSet(value, bits, Sat);
  }

  // ----- the commands

  datatype Kind = Set | IncrBy

  /** A write; the parser admits i1 to i64 and u1 to u63. */
  datatype WriteOp = WriteOp(kind: Kind, offset: nat, i64: int, ow: Overflow, bits: nat, sign: bool)

  predicate ValidOp(op: WriteOp) {
    1 <= op.bits <= 64 && (!op.sign ==> op.bits <= 63) && IsInt64(op.i64)
  }

  /** The integer of the type at the offset. */
  function Field(s: seq<Byte>, op: WriteOp): int
    requires ValidOp(op)
  {
    if op.sign then Signed(s, op.offset, op.bits) else Unsigned(s, op.offset, op.bits)
  }

  /** The value a write is asked to store, before the width is considered. */
  function Wanted(op: WriteOp, current: int): int {
    if op.kind.IncrBy? then current + op.i64
    else if op.sign then op.i64
    else ToUnsigned(op.i64)
  }

  /** What SAT makes of a value that does not fit. */
  function Saturated(op: WriteOp, v: int): int
    requires ValidOp(op)
  {
    if op.kind.IncrBy? then Clamp(v, op.bits, op.sign)
    else if !op.sign || v > MaxOf(op.bits, true) || MaxOf(op.bits, true) - v >= TWO63 then MaxOf(op.bits, op.sign)
    else MinOf(op.bits, true)
  }

  /** What a write stores: the value if it fits, else what the overflow type says; nothing for FAIL. */
  function Stored(op: WriteOp, current: int): Option<int>
    requires ValidOp(op)
  {
    var v := Wanted(op, current);
    if InRange(v, op.bits, op.sign) then Some(v)
    else
      match op.ow
      case Wrap => Some(Residue(v, op.bits, op.sign))
      case Sat => Some(Saturated(op, v))
      case Fail => None
  }

  /** The decision of the program: whether the check complained, and the value it goes on with. */
  function Decide(op: WriteOp, current: int): Check
    requires ValidOp(op) && (!op.sign ==> current >= 0)
  {
    if op.sign then
      if op.kind.IncrBy? then CheckSigned(current, op.i64, op.bits, op.ow) else CheckSigned(op.i64, 0, op.bits, op.ow)
    else
      if op.kind.IncrBy? then CheckUnsigned(current, op.i64, op.bits, op.ow)
      else CheckUnsigned(ToUnsigned(op.i64), 0, op.bits, op.ow)
  }

  lemma DecideIsRight(op: WriteOp, current: int)
    requires ValidOp(op) && InRange(current, op.bits, op.sign)
    ensures var check := Decide(op, current);
            && (check.code != 0 && op.ow.Fail? <==> Stored(op, current) == None)
            && (Stored(op, current).Some? ==>
                  Stored(op, current).value == if check.code != 0 then check.limit else Wanted(op, current))
  {
    hide CheckSigned, CheckUnsigned, Residue, Clamp, Pow2, ToUnsigned;
    if op.sign {
      if op.kind.IncrBy? {
        SignedIncrement(current, op.i64, op.bits, op.ow);
      } else {
        SignedSet(op.i64, op.bits, op.ow);
      }
    } else {
      if op.kind.IncrBy? {
        UnsignedIncrement(current, op.i64, op.bits, op.ow);
      } else {
        UnsignedSet(ToUnsigned(op.i64), op.bits, op.ow);
      }
    }
  }

  /** Whatever is stored can be held by the type. */
  lemma StoredFits(op: WriteOp, current: int)
    requires ValidOp(op) && Stored(op, current).Some?
    ensures InRange(Stored(op, current).value, op.bits, op.sign)
  {
    hide Pow2;
    WidthFits(op.bits);
  }

  /** The buffer after storing v. */
  function AfterStore(s: seq<Byte>, op: WriteOp, v: int): seq<Byte>
    requires op.offset + op.bits <= 8 * |s|
  {
    WriteRow(s, op.offset, ToBits(ToUnsigned(v), op.bits))
  }

  /** A value of the type reads back as itself. */
  lemma StoreThenRead(s: seq<Byte>, op: WriteOp, v: int)
    requires ValidOp(op) && op.offset + op.bits <= 8 * |s| && InRange(v, op.bits, op.sign)
    ensures Field(AfterStore(s, op, v), op) == v
  {
    hide Pow2, Written, Unsigned;
    var row := ToBits(ToUnsigned(v), op.bits);
    WriteRowWrites(s, op.offset, row);
    GetAfterSet(s, AfterStore(s, op, v), op.offset, op.bits, ToUnsigned(v));
    ReduceTwice(v, op.bits);
    WidthFits(op.bits);
    SmallResidue(v, op.bits);
  }

  lemma SmallResidue(v: int, bits: nat)
    ensures 0 <= v < Pow2(bits) ==> v % Pow2(bits) == v
    ensures 0 - Pow2(bits) <= v < 0 ==> v % Pow2(bits) == v + Pow2(bits)
  {
    hide Pow2;
    if 0 - Pow2(bits) <= v < 0 {
      ModuloShift(v + Pow2(bits), Pow2(bits), -1);
    }
  }

  lemma FieldInRange(s: seq<Byte>, op: WriteOp)
    requires ValidOp(op)
    ensures InRange(Field(s, op), op.bits, op.sign)
  {
    hide Pow2, Row, FromBits;
    FromBitsFits(Row(s, op.offset, op.bits));
    WidthFits(op.bits);
  }

  /**
   One SET or INCRBY of the execution loop: it replies with the old value or the new one,
   stores what the overflow type says, and with FAIL leaves the buffer alone. What was
   stored reads back, and no other bit changed.
   */
  method ExecuteWrite(p: array<Byte>, op: WriteOp) returns (reply: Option<int>)
    requires ValidOp(op) && op.offset + op.bits <= 8 * p.Length
    modifies p
    ensures var current := Field(old(p[..]), op);
            match Stored(op, current)
            case None => reply == None && p[..] == old(p[..])
            case Some(v) =>
              && reply == Some(if op.kind.IncrBy? then v else current)
              && p[..] == AfterStore(old(p[..]), op, v) && Field(p[..], op) == v
              && Written(old(p[..]), p[..], op.offset, ToBits(ToUnsigned(v), op.bits))
  {
    hide Stored, Decide, Wanted, InRange, Pow2, Written, WriteRow, Signed, Unsigned;
    ghost var before := p[..];
    var current: int;
    if op.sign {
      current := GetSignedBitfield(p[..], op.offset, op.bits);
    } else {
      current := GetUnsignedBitfield(p[..], op.offset, op.bits);
    }
    FieldInRange(before, op);
    DecideIsRight(op, current);
    var check := Decide(op, current);
    var newval := if check.code != 0 then check.limit else Wanted(op, current);
    if check.code != 0 && op.ow.Fail? {
      return None;
    }
    StoredFits(op, current);
    StoreThenRead(before, op, newval);
    SetUnsignedBitfield(p, op.offset, op.bits, ToUnsigned(newval));
    return Some(if op.kind.IncrBy? then newval else current);
  }

  // ----- reading through a window

  /** The nine bytes at the offset, zero padded. */
  method CopyWindow(src: seq<Byte>, byte: nat) returns (buf: array<Byte>)
    ensures fresh(buf) && buf.Length == 9
    ensures forall i :: 0 <= i < 9 ==> buf[i] == if byte + i < |src| then src[byte + i] else 0
  {
    buf := new Byte[9](_ => 0);
    for i := 0 to 9
      invariant forall k :: 0 <= k < i ==> buf[k] == if byte + k < |src| then src[byte + k] else 0
      invariant forall k :: i <= k < 9 ==> buf[k] == 0
    {
      if byte + i >= |src| {
        return;
      }
      buf[i] := src[byte + i];
    }
  }

  /** The window shows the bits of the zero-extended string. */
  lemma WindowShows(src: seq<Byte>, window: seq<Byte>, byte: nat, i: nat)
    requires |window| == 9 && i < 72
    requires forall k :: 0 <= k < 9 ==> window[k] == if byte + k < |src| then src[byte + k] else 0
    ensures BitOf(window, i) == BitOf(src, 8 * byte + i)
  {
    hide TestBit;
    if 8 * byte + i >= 8 * |src| {
      SkippedByte(0, true, i % 8);
    } else {
      assert (8 * byte + i) / 8 == byte + i / 8 && (8 * byte + i) % 8 == i % 8;
    }
  }

  lemma WindowRow(src: seq<Byte>, window: seq<Byte>, byte: nat, at: nat, bits: nat)
    requires |window| == 9 && at + bits <= 72
    requires forall k :: 0 <= k < 9 ==> window[k] == if byte + k < |src| then src[byte + k] else 0
    ensures Row(window, at, bits) == Row(src, 8 * byte + at, bits)
  {
    hide BitOf;
    forall j | 0 <= j < bits
      ensures Row(window, at, bits)[j] == Row(src, 8 * byte + at, bits)[j]
    {
      WindowShows(src, window, byte, at + j);
    }
  }

  /** GET: reading the window is reading the string as if zeros followed it. */
  method ExecuteGet(src: seq<Byte>, offset: nat, bits: nat, sign: bool) returns (value: int)
    requires 1 <= bits <= 64
    ensures value == if sign then Signed(src, offset, bits) else Unsigned(src, offset, bits)
  {
    hide Pow2, BitOf;
    var byte := offset / 8;
    var buf := CopyWindow(src, byte);
    ghost var window := buf[..];
    var at := offset - 8 * byte;
    WindowRow(src, window, byte, at, bits);
    if sign {
      value := GetSignedBitfield(buf[..], at, bits);
    } else {
      value := GetUnsignedBitfield(buf[..], at, bits);
    }
  }
}
