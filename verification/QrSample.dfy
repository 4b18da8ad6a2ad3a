/**
 The printer's own example: the alphanumeric text of the repository's test, bit by bit.
 */
module QrSample {
  import opened Octets
  import opened QrBits
  import opened QrVersions
  import opened QrContent

  /** "HELLO WORLD" */
  const TEXT: seq<Byte> := [72, 69, 76, 76, 79, 32, 87, 79, 82, 76, 68]

  /** The bits the test expects, as bytes. */
  const PRINTED: seq<nat> := [32, 91, 11, 120, 209, 114, 220, 77, 67, 64, 236, 17, 236]

  /** One field of a stream, shifted in. */
  lemma Field(v: nat, x: nat, n: nat, rest: seq<bool>)
    requires x < Pow2(n)
    ensures ShiftIn(v, NatBits(x, n) + rest) == ShiftIn(v * Pow2(n) + x, rest)
  {
    hide *;
    ShiftInAppend(v, NatBits(x, n), rest);
    ShiftInBits(v, x, n);
  }

  lemma SameBits(a: seq<bool>, b: seq<bool>)
    requires |a| == |b| && ShiftIn(0, a) == ShiftIn(0, b)
    ensures a == b
  {
    hide *;
    BitsOfShiftIn(0, a);
    BitsOfShiftIn(0, b);
  }

  lemma Widths()
    ensures Pow2(4) == 16 && Pow2(6) == 64 && Pow2(8) == 256 && Pow2(9) == 512 && Pow2(11) == 2048
  {
    assert Pow2(8) == 4 * Pow2(6);
    assert Pow2(11) == 4 * Pow2(9);
  }

  /** Pairs of characters, each as one number, and the last one. */
  lemma Pairs()
    ensures AlphanumericBits(TEXT) ==
      NatBits(779, 11) + (NatBits(966, 11) + (NatBits(1116, 11) + (NatBits(1464, 11) + (NatBits(1236, 11)
      + NatBits(13, 6)))))
    ensures Carries(Alphanumeric, TEXT)
  {
    hide NatBits;
    assert TEXT[2..] == [76, 76, 79, 32, 87, 79, 82, 76, 68];
    assert TEXT[2..][2..] == [79, 32, 87, 79, 82, 76, 68];
    assert TEXT[2..][2..][2..] == [87, 79, 82, 76, 68];
    assert TEXT[2..][2..][2..][2..] == [82, 76, 68];
    assert TEXT[2..][2..][2..][2..][2..] == [68];
  }

  /** Six zeros up to the byte, and three bytes of padding in turns. */
  lemma End()
    ensures Terminator(74, 13) == NatBits(0, 6) + (NatBits(0xec, 8) + (NatBits(0x11, 8) + NatBits(0xec, 8)))
  {
    hide NatBits, Falses, Padding;
    SixZeros();
    PaddingUnfold(3);
  }

  lemma SixZeros()
    ensures Falses(6) == NatBits(0, 6)
  {
  }

  /** The stream up to the capacity, field by field. */
  lemma Stream()
    ensures
      HeaderAndData(Alphanumeric, TEXT, 1) + Terminator(74, 13) ==
      NatBits(2, 4) + (NatBits(11, 9) + (NatBits(779, 11) + (NatBits(966, 11) + (NatBits(1116, 11) + (NatBits(1464, 11)
      + (NatBits(1236, 11) + (NatBits(13, 6) + (NatBits(0, 6) + (NatBits(0xec, 8) + (NatBits(0x11, 8)
      + NatBits(0xec, 8)))))))))))
    ensures |HeaderAndData(Alphanumeric, TEXT, 1)| == 74
  {
    Pairs();
    End();
    hide NatBits, AlphanumericBits, Terminator, TEXT;
    assert |TEXT| == 11 by { TextLength(); }
  }

  lemma TextLength()
    ensures |TEXT| == 11
  {
  }

  lemma Last(v: nat, x: nat, n: nat)
    requires x < Pow2(n)
    ensures ShiftIn(v, NatBits(x, n)) == v * Pow2(n) + x
  {
    hide *;
    assert NatBits(x, n) + [] == NatBits(x, n);
    Field(v, x, n, []);
    Done(v * Pow2(n) + x);
  }

  lemma Done(v: nat)
    ensures ShiftIn(v, []) == v
  {
  }

  /** The stream as one number. */
  lemma StreamValue()
    ensures ShiftIn(0, HeaderAndData(Alphanumeric, TEXT, 1) + Terminator(74, 13)) == 0x205b0b78d172dc4d4340ec11ec
  {
    hide NatBits, ShiftIn, Pow2, HeaderAndData, Terminator;
    Widths();
    Stream();
    var r11 := NatBits(236, 8);
    var r10 := NatBits(17, 8) + r11;
    var r9 := NatBits(236, 8) + r10;
    var r8 := NatBits(0, 6) + r9;
    var r7 := NatBits(13, 6) + r8;
    var r6 := NatBits(1236, 11) + r7;
    var r5 := NatBits(1464, 11) + r6;
    var r4 := NatBits(1116, 11) + r5;
    var r3 := NatBits(966, 11) + r4;
    var r2 := NatBits(779, 11) + r3;
    var r1 := NatBits(11, 9) + r2;
    var r0 := NatBits(2, 4) + r1;
    Field(0, 2, 4, r1);
    Field(2, 11, 9, r2);
    Field(1035, 779, 11, r3);
    Field(0x205b0b, 966, 11, r4);
    Field(0x102d85bc6, 1116, 11, r5);
    Field(0x816c2de345c, 1464, 11, r6);
    Field(0x40b616f1a2e5b8, 1236, 11, r7);
    Field(0x205b0b78d172dc4d4, 13, 6, r8);
    Field(0x816c2de345cb71350d, 0, 6, r9);
    Field(0x205b0b78d172dc4d4340, 236, 8, r10);
    Field(0x205b0b78d172dc4d4340ec, 17, 8, r11);
    Last(0x205b0b78d172dc4d4340ec11, 236, 8);
  }

  /** The bits of the expected bytes from the k-th on. */
  function Rest(k: nat): seq<bool>
    requires k <= |PRINTED|
  {
    ByteBits(PRINTED[k..])
  }

  /** One of the expected bytes, shifted in. */
  lemma ByteField(v: nat, k: nat, x: nat)
    requires k < |PRINTED| && PRINTED[k] == x < 256
    ensures ShiftIn(v, Rest(k)) == ShiftIn(v * 256 + x, Rest(k + 1))
  {
    hide NatBits, ShiftIn;
    Pow2Eight();
    assert PRINTED[k..][1..] == PRINTED[k + 1..];
    Field(v, PRINTED[k], 8, ByteBits(PRINTED[k + 1..]));
  }

  /** The expected bytes as one number. */
  lemma PrintedValue()
    ensures ShiftIn(0, ByteBits(PRINTED)) == 0x205b0b78d172dc4d4340ec11ec
  {
    hide ShiftIn, ByteBits, Rest;
    RestEnds();
    ByteField(0, 0, 32);
    ByteField(32, 1, 91);
    ByteField(8283, 2, 11);
    ByteField(0x205b0b, 3, 120);
    ByteField(0x205b0b78, 4, 209);
    ByteField(0x205b0b78d1, 5, 114);
    ByteField(0x205b0b78d172, 6, 220);
    ByteField(0x205b0b78d172dc, 7, 77);
    ByteField(0x205b0b78d172dc4d, 8, 67);
    ByteField(0x205b0b78d172dc4d43, 9, 64);
    ByteField(0x205b0b78d172dc4d4340, 10, 236);
    ByteField(0x205b0b78d172dc4d4340ec, 11, 17);
    ByteField(0x205b0b78d172dc4d4340ec11, 12, 236);
    Done(0x205b0b78d172dc4d4340ec11ec);
  }

  lemma RestEnds()
    ensures Rest(0) == ByteBits(PRINTED) && Rest(13) == []
  {
    assert PRINTED[0..] == PRINTED && PRINTED[13..] == [];
  }

  /** What the test expects: the narrowest mode, the smallest version, and these bits. */
  lemma TestContentBits()
    ensures TextMode(TEXT) == Alphanumeric
    ensures Printed(ByteBits(PRINTED), TEXT, Alphanumeric, 1, 3)
  {
    TestMode();
    TestSize();
    Stream();
    StreamValue();
    PrintedValue();
    hide NatBits, ShiftIn, Pow2, HeaderAndData, Terminator, ByteBits, DataCodewords, AlphanumericBits;
    SameBits(ByteBits(PRINTED), HeaderAndData(Alphanumeric, TEXT, 1) + Terminator(74, 13));
  }

  lemma TestMode()
    ensures TextMode(TEXT) == Alphanumeric && Carries(Alphanumeric, TEXT)
  {
    assert TEXT[0] == 72;
  }

  lemma TestSize()
    ensures DataCodewords(1, 3) == 13 && Fits(BitsNeeded(Alphanumeric, TEXT), 1, 3)
    ensures |PRINTED| == 13 && |Terminator(74, 13)| == 30
  {
    Pairs();
    End();
    hide NatBits, AlphanumericBits, Terminator;
  }
}
