/**
 The check value of the CRC: the string "123456789" has the value that the self-test of
 crc64.c expects. It ties the polynomial and every bit of the definition to known constants.
 */
module CrcCheck {
  import opened Prelude
  import opened Crc64

  const CHECK_STRING: seq<Byte> := [49, 50, 51, 52, 53, 54, 55, 56, 57]
  const CHECK_VALUE: bv64 := 0xe9c6d914c4b8d9ca

  /** The eight steps of one byte. */
  function Fed(crc: bv64, b: Byte): bv64 {
    LowStep(LowStep(LowStep(LowStep(LowStep(LowStep(LowStep(LowStep(crc,
      Bit(b, 1)), Bit(b, 2)), Bit(b, 4)), Bit(b, 8)), Bit(b, 16)), Bit(b, 32)), Bit(b, 64)), Bit(b, 128))
  }

  lemma NextBit(crc: bv64, b: Byte, mask: Byte, twice: Byte, n: nat)
    requires n > 0 && mask << 1 == twice
    ensures LowBits(crc, b, mask, n) == LowBits(LowStep(crc, Bit(b, mask)), b, twice, n - 1)
  {
    hide LowStep, Bit;
  }

  lemma NoBitsLeft(crc: bv64, b: Byte, mask: Byte)
    ensures LowBits(crc, b, mask, 0) == crc
  {
  }

  lemma FedIsLowByte(crc: bv64, b: Byte)
    ensures LowByte(crc, b) == Fed(crc, b)
  {
    hide LowStep, Bit, LowBits;
    var c1 := LowStep(crc, Bit(b, 1));
    var c2 := LowStep(c1, Bit(b, 2));
    var c3 := LowStep(c2, Bit(b, 4));
    var c4 := LowStep(c3, Bit(b, 8));
    var c5 := LowStep(c4, Bit(b, 16));
    var c6 := LowStep(c5, Bit(b, 32));
    var c7 := LowStep(c6, Bit(b, 64));
    NextBit(crc, b, 1, 2, 8);
    NextBit(c1, b, 2, 4, 7);
    NextBit(c2, b, 4, 8, 6);
    NextBit(c3, b, 8, 16, 5);
    NextBit(c4, b, 16, 32, 4);
    NextBit(c5, b, 32, 64, 3);
    NextBit(c6, b, 64, 128, 2);
    NextBit(c7, b, 128, 0, 1);
    NoBitsLeft(LowStep(c7, Bit(b, 128)), b, 0);
  }

  /** The register after each of the nine bytes. */
  lemma Registers()
    ensures Fed(0x0000000000000000, 49) == 0xfdc17184a9f739fa
    ensures Fed(0xfdc17184a9f739fa, 50) == 0xe10364513a98ed96
    ensures Fed(0xe10364513a98ed96, 51) == 0xd5bcfb814479b1ac
    ensures Fed(0xd5bcfb814479b1ac, 52) == 0x43593c5dcda521f0
    ensures Fed(0x43593c5dcda521f0, 53) == 0xf0758513239c7e0d
    ensures Fed(0xf0758513239c7e0d, 54) == 0xa3a90925b2ab4903
    ensures Fed(0xa3a90925b2ab4903, 55) == 0x47824d362431ad45
    ensures Fed(0x47824d362431ad45, 56) == 0x49ec20b315e86dc2
    ensures Fed(0x49ec20b315e86dc2, 57) == CHECK_VALUE
  {
  }

  lemma OneMore(crc: bv64, s: seq<Byte>, next: bv64)
    requires s != [] && Fed(crc, s[0]) == next
    ensures Crc(crc, s) == Crc(next, s[1..])
  {
    hide LowByte, Fed;
    FedIsLowByte(crc, s[0]);
  }

  lemma CheckValue()
    ensures Crc(0, CHECK_STRING) == CHECK_VALUE
  {
    hide Crc, Fed;
    Registers();
    var s := CHECK_STRING;
    OneMore(0x0000000000000000, s[0..], 0xfdc17184a9f739fa);
    OneMore(0xfdc17184a9f739fa, s[1..], 0xe10364513a98ed96);
    OneMore(0xe10364513a98ed96, s[2..], 0xd5bcfb814479b1ac);
    OneMore(0xd5bcfb814479b1ac, s[3..], 0x43593c5dcda521f0);
    OneMore(0x43593c5dcda521f0, s[4..], 0xf0758513239c7e0d);
    OneMore(0xf0758513239c7e0d, s[5..], 0xa3a90925b2ab4903);
    OneMore(0xa3a90925b2ab4903, s[6..], 0x47824d362431ad45);
    OneMore(0x47824d362431ad45, s[7..], 0x49ec20b315e86dc2);
    OneMore(0x49ec20b315e86dc2, s[8..], CHECK_VALUE);
    NothingLeft(CHECK_VALUE);
    assert s[0..] == s && s[9..] == [];
  }

  lemma NothingLeft(crc: bv64)
    ensures Crc(crc, []) == crc
  {
  }
}
