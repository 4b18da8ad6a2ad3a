/**
 The encoder's field tables, which are written out as literals: they hold the powers of 2 and
 the logarithms that the decoder computes.
 */
module GaloisLiterals {
  /** Sixteen rows of sixteen entries, as the source lays them out. */
  const FIELD_EXP_TABLE: seq<seq<bv8>> := [
    [1, 2, 4, 8, 16, 32, 64, 128, 29, 58, 116, 232, 205, 135, 19, 38],
    [76, 152, 45, 90, 180, 117, 234, 201, 143, 3, 6, 12, 24, 48, 96, 192],
    [157, 39, 78, 156, 37, 74, 148, 53, 106, 212, 181, 119, 238, 193, 159, 35],
    [70, 140, 5, 10, 20, 40, 80, 160, 93, 186, 105, 210, 185, 111, 222, 161],
    [95, 190, 97, 194, 153, 47, 94, 188, 101, 202, 137, 15, 30, 60, 120, 240],
    [253, 231, 211, 187, 107, 214, 177, 127, 254, 225, 223, 163, 91, 182, 113, 226],
    [217, 175, 67, 134, 17, 34, 68, 136, 13, 26, 52, 104, 208, 189, 103, 206],
    [129, 31, 62, 124, 248, 237, 199, 147, 59, 118, 236, 197, 151, 51, 102, 204],
    [133, 23, 46, 92, 184, 109, 218, 169, 79, 158, 33, 66, 132, 21, 42, 84],
    [168, 77, 154, 41, 82, 164, 85, 170, 73, 146, 57, 114, 228, 213, 183, 115],
    [230, 209, 191, 99, 198, 145, 63, 126, 252, 229, 215, 179, 123, 246, 241, 255],
    [227, 219, 171, 75, 150, 49, 98, 196, 149, 55, 110, 220, 165, 87, 174, 65],
    [130, 25, 50, 100, 200, 141, 7, 14, 28, 56, 112, 224, 221, 167, 83, 166],
    [81, 162, 89, 178, 121, 242, 249, 239, 195, 155, 43, 86, 172, 69, 138, 9],
    [18, 36, 72, 144, 61, 122, 244, 245, 247, 243, 251, 235, 203, 139, 11, 22],
    [44, 88, 176, 125, 250, 233, 207, 131, 27, 54, 108, 216, 173, 71, 142, 1]
  ]

  const FIELD_LOG_TABLE: seq<seq<int>> := [
    [0, 0, 1, 25, 2, 50, 26, 198, 3, 223, 51, 238, 27, 104, 199, 75],
    [4, 100, 224, 14, 52, 141, 239, 129, 28, 193, 105, 248, 200, 8, 76, 113],
    [5, 138, 101, 47, 225, 36, 15, 33, 53, 147, 142, 218, 240, 18, 130, 69],
    [29, 181, 194, 125, 106, 39, 249, 185, 201, 154, 9, 120, 77, 228, 114, 166],
    [6, 191, 139, 98, 102, 221, 48, 253, 226, 152, 37, 179, 16, 145, 34, 136],
    [54, 208, 148, 206, 143, 150, 219, 189, 241, 210, 19, 92, 131, 56, 70, 64],
    [30, 66, 182, 163, 195, 72, 126, 110, 107, 58, 40, 84, 250, 133, 186, 61],
    [202, 94, 155, 159, 10, 21, 121, 43, 78, 212, 229, 172, 115, 243, 167, 87],
    [7, 112, 192, 247, 140, 128, 99, 13, 103, 74, 222, 237, 49, 197, 254, 24],
    [227, 165, 153, 119, 38, 184, 180, 124, 17, 68, 146, 217, 35, 32, 137, 46],
    [55, 63, 209, 91, 149, 188, 207, 205, 144, 135, 151, 178, 220, 252, 190, 97],
    [242, 86, 211, 171, 20, 42, 93, 158, 132, 60, 57, 83, 71, 109, 65, 162],
    [31, 45, 67, 216, 183, 123, 164, 118, 196, 23, 73, 236, 127, 12, 111, 246],
    [108, 161, 59, 82, 41, 157, 85, 170, 251, 96, 134, 177, 187, 204, 62, 90],
    [203, 89, 95, 176, 156, 169, 160, 81, 11, 245, 22, 235, 122, 117, 44, 215],
    [79, 174, 213, 233, 230, 231, 173, 232, 116, 214, 244, 234, 168, 80, 88, 175]
  ]

  function ExpEntry(k: int): bv8
    requires 0 <= k < 256
  {
    var row := FIELD_EXP_TABLE[k / 16];
    row[k % 16]
  }

  /** A logarithm whose power is `a`. */
  predicate LogOfByte(k: int, a: bv8) {
    0 <= k < 255 && ExpEntry(k) == a
  }

  predicate Inverts(row: seq<int>, base: bv8) {
    && |row| == 16
    && LogOfByte(row[1], base + 1)
    && LogOfByte(row[2], base + 2)
    && LogOfByte(row[3], base + 3)
    && LogOfByte(row[4], base + 4)
    && LogOfByte(row[5], base + 5)
    && LogOfByte(row[6], base + 6)
    && LogOfByte(row[7], base + 7)
    && LogOfByte(row[8], base + 8)
    && LogOfByte(row[9], base + 9)
    && LogOfByte(row[10], base + 10)
    && LogOfByte(row[11], base + 11)
    && LogOfByte(row[12], base + 12)
    && LogOfByte(row[13], base + 13)
    && LogOfByte(row[14], base + 14)
    && LogOfByte(row[15], base + 15)
    && (base == 0 || LogOfByte(row[0], base))
  }

  // One check for each row of logarithms.
  lemma LogRow0() ensures Inverts(FIELD_LOG_TABLE[0], 0) { }
  lemma LogRow1() ensures Inverts(FIELD_LOG_TABLE[1], 16) { }
  lemma LogRow2() ensures Inverts(FIELD_LOG_TABLE[2], 32) { }
  lemma LogRow3() ensures Inverts(FIELD_LOG_TABLE[3], 48) { }
  lemma LogRow4() ensures Inverts(FIELD_LOG_TABLE[4], 64) { }
  lemma LogRow5() ensures Inverts(FIELD_LOG_TABLE[5], 80) { }
  lemma LogRow6() ensures Inverts(FIELD_LOG_TABLE[6], 96) { }
  lemma LogRow7() ensures Inverts(FIELD_LOG_TABLE[7], 112) { }
  lemma LogRow8() ensures Inverts(FIELD_LOG_TABLE[8], 128) { }
  lemma LogRow9() ensures Inverts(FIELD_LOG_TABLE[9], 144) { }
  lemma LogRow10() ensures Inverts(FIELD_LOG_TABLE[10], 160) { }
  lemma LogRow11() ensures Inverts(FIELD_LOG_TABLE[11], 176) { }
  lemma LogRow12() ensures Inverts(FIELD_LOG_TABLE[12], 192) { }
  lemma LogRow13() ensures Inverts(FIELD_LOG_TABLE[13], 208) { }
  lemma LogRow14() ensures Inverts(FIELD_LOG_TABLE[14], 224) { }
  lemma LogRow15() ensures Inverts(FIELD_LOG_TABLE[15], 240) { }
}

/** The check of the powers against doubling, and of the logarithms against the powers. */
module GaloisLiteralsProof {
  import opened GaloisField
  import opened Doubling
  import opened GaloisLiterals

  /** Each entry of a row is twice the one before, and so is what follows the row. */
  predicate Doubles(row: seq<bv8>, next: bv8) {
    && |row| == 16
    && row[1] == Xtime(row[0]) && row[2] == Xtime(row[1]) && row[3] == Xtime(row[2])
    && row[4] == Xtime(row[3]) && row[5] == Xtime(row[4]) && row[6] == Xtime(row[5])
    && row[7] == Xtime(row[6]) && row[8] == Xtime(row[7]) && row[9] == Xtime(row[8])
    && row[10] == Xtime(row[9]) && row[11] == Xtime(row[10]) && row[12] == Xtime(row[11])
    && row[13] == Xtime(row[12]) && row[14] == Xtime(row[13]) && row[15] == Xtime(row[14])
    && next == Xtime(row[15])
  }

  lemma ExpRowsDouble(r: nat)
    requires r < 15
    ensures Doubles(FIELD_EXP_TABLE[r], FIELD_EXP_TABLE[r + 1][0])
  {
    if r < 8 { ExpRowsDoubleLow(r); } else { ExpRowsDoubleHigh(r); }
  }

  lemma ExpRowsDoubleLow(r: nat)
    requires r < 8
    ensures Doubles(FIELD_EXP_TABLE[r], FIELD_EXP_TABLE[r + 1][0])
  {
    match r {
      case 0 => assert Doubles(FIELD_EXP_TABLE[0], FIELD_EXP_TABLE[1][0]);
      case 1 => assert Doubles(FIELD_EXP_TABLE[1], FIELD_EXP_TABLE[2][0]);
      case 2 => assert Doubles(FIELD_EXP_TABLE[2], FIELD_EXP_TABLE[3][0]);
      case 3 => assert Doubles(FIELD_EXP_TABLE[3], FIELD_EXP_TABLE[4][0]);
      case 4 => assert Doubles(FIELD_EXP_TABLE[4], FIELD_EXP_TABLE[5][0]);
      case 5 => assert Doubles(FIELD_EXP_TABLE[5], FIELD_EXP_TABLE[6][0]);
      case 6 => assert Doubles(FIELD_EXP_TABLE[6], FIELD_EXP_TABLE[7][0]);
      case 7 => assert Doubles(FIELD_EXP_TABLE[7], FIELD_EXP_TABLE[8][0]);
    }
  }

  lemma ExpRowsDoubleHigh(r: nat)
    requires 8 <= r < 15
    ensures Doubles(FIELD_EXP_TABLE[r], FIELD_EXP_TABLE[r + 1][0])
  {
    match r {
      case 8 => assert Doubles(FIELD_EXP_TABLE[8], FIELD_EXP_TABLE[9][0]);
      case 9 => assert Doubles(FIELD_EXP_TABLE[9], FIELD_EXP_TABLE[10][0]);
      case 10 => assert Doubles(FIELD_EXP_TABLE[10], FIELD_EXP_TABLE[11][0]);
      case 11 => assert Doubles(FIELD_EXP_TABLE[11], FIELD_EXP_TABLE[12][0]);
      case 12 => assert Doubles(FIELD_EXP_TABLE[12], FIELD_EXP_TABLE[13][0]);
      case 13 => assert Doubles(FIELD_EXP_TABLE[13], FIELD_EXP_TABLE[14][0]);
      case 14 => assert Doubles(FIELD_EXP_TABLE[14], FIELD_EXP_TABLE[15][0]);
    }
  }

  /** The row after the last would start with twice its last entry. */
  lemma LastRowDoubles()
    ensures Doubles(FIELD_EXP_TABLE[15], 2)
  {
  }

  lemma LogRowsInvert(a: bv8)
    ensures TableShape() && Inverts(FIELD_LOG_TABLE[(a >> 4) as int], a & 0xf0)
  {
    hide FIELD_LOG_TABLE, Inverts, TableShape;
    ShapeHolds();
    match a >> 4 {
      case 0 => LogRow0(); assert a & 0xf0 == 0;
      case 1 => LogRow1(); assert a & 0xf0 == 16;
      case 2 => LogRow2(); assert a & 0xf0 == 32;
      case 3 => LogRow3(); assert a & 0xf0 == 48;
      case 4 => LogRow4(); assert a & 0xf0 == 64;
      case 5 => LogRow5(); assert a & 0xf0 == 80;
      case 6 => LogRow6(); assert a & 0xf0 == 96;
      case 7 => LogRow7(); assert a & 0xf0 == 112;
      case 8 => LogRow8(); assert a & 0xf0 == 128;
      case 9 => LogRow9(); assert a & 0xf0 == 144;
      case 10 => LogRow10(); assert a & 0xf0 == 160;
      case 11 => LogRow11(); assert a & 0xf0 == 176;
      case 12 => LogRow12(); assert a & 0xf0 == 192;
      case 13 => LogRow13(); assert a & 0xf0 == 208;
      case 14 => LogRow14(); assert a & 0xf0 == 224;
      case 15 => LogRow15(); assert a & 0xf0 == 240;
    }
  }

  lemma DoublesAt(row: seq<bv8>, next: bv8, c: nat)
    requires Doubles(row, next) && c < 16
    ensures (if c < 15 then row[c + 1] else next) == Xtime(row[c])
  {
    hide Xtime;
    match c {
      case 0 =>
      case 1 =>
      case 2 =>
      case 3 =>
      case 4 =>
      case 5 =>
      case 6 =>
      case 7 =>
      case 8 =>
      case 9 =>
      case 10 =>
      case 11 =>
      case 12 =>
      case 13 =>
      case 14 =>
      case 15 =>
    }
  }

  predicate TableShape() {
    && |FIELD_EXP_TABLE| == 16 && |FIELD_LOG_TABLE| == 16
    && (forall r :: 0 <= r < 16 ==> |FIELD_EXP_TABLE[r]| == 16 && |FIELD_LOG_TABLE[r]| == 16)
    && FIELD_EXP_TABLE[0][0] == 1
  }

  lemma ShapeHolds()
    ensures TableShape()
  {
  }

  lemma PowStep(k: nat)
    ensures Pow(0) == 1 && Pow(k + 1) == Xtime(Pow(k))
  {
    hide Xtime;
  }

  lemma {:induction false} LiteralRow(r: nat, c: nat)
    requires r < 16 && c < 16 && TableShape()
    ensures FIELD_EXP_TABLE[r][c] == Pow(16 * r + c)
    decreases r, c
  {
    hide Pow, Xtime, Doubles, FIELD_EXP_TABLE, FIELD_LOG_TABLE;
    if c > 0 {
      LiteralRow(r, c - 1);
      PowStep(16 * r + c - 1);
      if r < 15 {
        ExpRowsDouble(r);
        DoublesAt(FIELD_EXP_TABLE[r], FIELD_EXP_TABLE[r + 1][0], c - 1);
      } else {
        LastRowDoubles();
        DoublesAt(FIELD_EXP_TABLE[r], 2, c - 1);
      }
    } else if r > 0 {
      LiteralRow(r - 1, 15);
      PowStep(16 * r - 1);
      ExpRowsDouble(r - 1);
      DoublesAt(FIELD_EXP_TABLE[r - 1], FIELD_EXP_TABLE[r][0], 15);
    } else {
      PowStep(0);
    }
  }

  /** The literal powers are the powers of 2. */
  lemma LiteralPowers(k: nat)
    requires k < 256
    ensures Elem(ExpEntry(k)) == Exp(k)
  {
    hide FIELD_EXP_TABLE, FIELD_LOG_TABLE, Pow, TableShape;
    ShapeHolds();
    LiteralRow(k / 16, k % 16);
  }

  function LogEntry(a: bv8): int {
    NibblesInRange(a);
    ShapeHolds();
    FIELD_LOG_TABLE[(a >> 4) as int][(a & 0x0f) as int]
  }

  lemma NibblesInRange(a: bv8)
    ensures ((a >> 4) as int) < 16 && ((a & 0x0f) as int) < 16
  {
  }

  lemma InvertsAt(row: seq<int>, base: bv8, c: bv8)
    requires Inverts(row, base) && c < 16 && (base != 0 || c != 0)
    ensures (c as int) < |row| && LogOfByte(row[c as int], base + c)
  {
    hide LogOfByte;
    match c {
      case 0 =>
      case 1 =>
      case 2 =>
      case 3 =>
      case 4 =>
      case 5 =>
      case 6 =>
      case 7 =>
      case 8 =>
      case 9 =>
      case 10 =>
      case 11 =>
      case 12 =>
      case 13 =>
      case 14 =>
      case 15 =>
      case _ =>
    }
  }

  lemma Nibbles(a: bv8)
    ensures (a & 0xf0) + (a & 0x0f) == a
    ensures a != 0 ==> a & 0xf0 != 0 || a & 0x0f != 0
    ensures a & 0x0f < 16
  {
  }

  /** The literal logarithms are the logarithms. */
  lemma LiteralLogarithms(a: Elem)
    requires a != ZERO
    ensures LogEntry(a.bits) == Log(a)
  {
    hide FIELD_LOG_TABLE, FIELD_EXP_TABLE, Inverts, ExpEntry, Exp, Log;
    var n := a.bits;
    assert n != 0;
    Nibbles(n);
    LogRowsInvert(n);
    InvertsAt(FIELD_LOG_TABLE[(n >> 4) as int], n & 0xf0, n & 0x0f);
    LiteralPowers(LogEntry(n));
    LogUnique(LogEntry(n));
  }
}
