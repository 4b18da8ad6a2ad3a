/**
 The capacity table of QR versions and the choice of the smallest version that holds a content.
 */
module QrVersions {

  datatype Ecb = Ecb(count: nat, dataCodewords: nat)

  datatype Ecbs = Ecbs(codewordsPerBlock: nat, blocks: seq<Ecb>)

  /** Error correction levels by number: M, L, H, Q. */
  type Level = l: nat | l < 4

  type Version = v: nat | 1 <= v <= 40 witness 1

  function EcBlocks(v: Version): (row: seq<Ecbs>)
    ensures |row| == 4
  {
    match v
    case 1 => [Ecbs(10, [Ecb(1, 16)]), Ecbs(7, [Ecb(1, 19)]), Ecbs(17, [Ecb(1, 9)]), Ecbs(13, [Ecb(1, 13)])]
    case 2 => [Ecbs(16, [Ecb(1, 28)]), Ecbs(10, [Ecb(1, 34)]), Ecbs(28, [Ecb(1, 16)]), Ecbs(22, [Ecb(1, 22)])]
    case 3 => [Ecbs(26, [Ecb(1, 44)]), Ecbs(15, [Ecb(1, 55)]), Ecbs(22, [Ecb(2, 13)]), Ecbs(18, [Ecb(2, 17)])]
    case 4 => [Ecbs(18, [Ecb(2, 32)]), Ecbs(20, [Ecb(1, 80)]), Ecbs(16, [Ecb(4, 9)]), Ecbs(26, [Ecb(2, 24)])]
    case 5 => [Ecbs(24, [Ecb(2, 43)]), Ecbs(26, [Ecb(1, 108)]), Ecbs(22, [Ecb(2, 11), Ecb(2, 12)]), Ecbs(18, [Ecb(2, 15), Ecb(2, 16)])]
    case 6 => [Ecbs(16, [Ecb(4, 27)]), Ecbs(18, [Ecb(2, 68)]), Ecbs(28, [Ecb(4, 15)]), Ecbs(24, [Ecb(4, 19)])]
    case 7 => [Ecbs(18, [Ecb(4, 31)]), Ecbs(20, [Ecb(2, 78)]), Ecbs(26, [Ecb(4, 13), Ecb(1, 14)]), Ecbs(18, [Ecb(2, 14), Ecb(4, 15)])]
    case 8 => [Ecbs(22, [Ecb(2, 38), Ecb(2, 39)]), Ecbs(24, [Ecb(2, 97)]), Ecbs(26, [Ecb(4, 14), Ecb(2, 15)]), Ecbs(22, [Ecb(4, 18), Ecb(2, 19)])]
    case 9 => [Ecbs(22, [Ecb(3, 36), Ecb(2, 37)]), Ecbs(30, [Ecb(2, 116)]), Ecbs(24, [Ecb(4, 12), Ecb(4, 13)]), Ecbs(20, [Ecb(4, 16), Ecb(4, 17)])]
    case 10 => [Ecbs(26, [Ecb(4, 43), Ecb(1, 44)]), Ecbs(18, [Ecb(2, 68), Ecb(2, 69)]), Ecbs(28, [Ecb(6, 15), Ecb(2, 16)]), Ecbs(24, [Ecb(6, 19), Ecb(2, 20)])]
    case 11 => [Ecbs(30, [Ecb(1, 50), Ecb(4, 51)]), Ecbs(20, [Ecb(4, 81)]), Ecbs(24, [Ecb(3, 12), Ecb(8, 13)]), Ecbs(28, [Ecb(4, 22), Ecb(4, 23)])]
    case 12 => [Ecbs(22, [Ecb(6, 36), Ecb(2, 37)]), Ecbs(24, [Ecb(2, 92), Ecb(2, 93)]), Ecbs(28, [Ecb(7, 14), Ecb(4, 15)]), Ecbs(26, [Ecb(4, 20), Ecb(6, 21)])]
    case 13 => [Ecbs(22, [Ecb(8, 37), Ecb(1, 38)]), Ecbs(26, [Ecb(4, 107)]), Ecbs(22, [Ecb(12, 11), Ecb(4, 12)]), Ecbs(24, [Ecb(8, 20), Ecb(4, 21)])]
    case 14 => [Ecbs(24, [Ecb(4, 40), Ecb(5, 41)]), Ecbs(30, [Ecb(3, 115), Ecb(1, 116)]), Ecbs(24, [Ecb(11, 12), Ecb(5, 13)]), Ecbs(20, [Ecb(11, 16), Ecb(5, 17)])]
    case 15 => [Ecbs(24, [Ecb(5, 41), Ecb(5, 42)]), Ecbs(22, [Ecb(5, 87), Ecb(1, 88)]), Ecbs(24, [Ecb(11, 12), Ecb(7, 13)]), Ecbs(30, [Ecb(5, 24), Ecb(7, 25)])]
    case 16 => [Ecbs(28, [Ecb(7, 45), Ecb(3, 46)]), Ecbs(24, [Ecb(5, 98), Ecb(1, 99)]), Ecbs(30, [Ecb(3, 15), Ecb(13, 16)]), Ecbs(24, [Ecb(15, 19), Ecb(2, 20)])]
    case 17 => [Ecbs(28, [Ecb(10, 46), Ecb(1, 47)]), Ecbs(28, [Ecb(1, 107), Ecb(5, 108)]), Ecbs(28, [Ecb(2, 14), Ecb(17, 15)]), Ecbs(28, [Ecb(1, 22), Ecb(15, 23)])]
    case 18 => [Ecbs(26, [Ecb(9, 43), Ecb(4, 44)]), Ecbs(30, [Ecb(5, 120), Ecb(1, 121)]), Ecbs(28, [Ecb(2, 14), Ecb(19, 15)]), Ecbs(28, [Ecb(17, 22), Ecb(1, 23)])]
    case 19 => [Ecbs(26, [Ecb(3, 44), Ecb(11, 44)]), Ecbs(28, [Ecb(3, 113), Ecb(4, 114)]), Ecbs(26, [Ecb(9, 13), Ecb(16, 14)]), Ecbs(26, [Ecb(17, 21), Ecb(4, 22)])]
    case 20 => [Ecbs(26, [Ecb(3, 41), Ecb(13, 42)]), Ecbs(28, [Ecb(3, 107), Ecb(5, 108)]), Ecbs(28, [Ecb(15, 15), Ecb(10, 16)]), Ecbs(30, [Ecb(15, 24), Ecb(5, 25)])]
    case 21 => [Ecbs(26, [Ecb(17, 42)]), Ecbs(28, [Ecb(4, 116), Ecb(4, 117)]), Ecbs(30, [Ecb(19, 16), Ecb(6, 17)]), Ecbs(28, [Ecb(17, 22), Ecb(6, 23)])]
    case 22 => [Ecbs(28, [Ecb(17, 46)]), Ecbs(28, [Ecb(2, 111), Ecb(7, 112)]), Ecbs(24, [Ecb(34, 13)]), Ecbs(30, [Ecb(7, 24), Ecb(16, 25)])]
    case 23 => [Ecbs(28, [Ecb(4, 47), Ecb(14, 48)]), Ecbs(30, [Ecb(4, 121), Ecb(5, 122)]), Ecbs(30, [Ecb(16, 15), Ecb(14, 16)]), Ecbs(30, [Ecb(11, 24), Ecb(14, 25)])]
    case 24 => [Ecbs(28, [Ecb(6, 45), Ecb(14, 46)]), Ecbs(30, [Ecb(6, 117), Ecb(4, 118)]), Ecbs(30, [Ecb(30, 16), Ecb(2, 17)]), Ecbs(30, [Ecb(11, 24), Ecb(16, 25)])]
    case 25 => [Ecbs(28, [Ecb(8, 47), Ecb(13, 48)]), Ecbs(26, [Ecb(8, 106), Ecb(4, 107)]), Ecbs(30, [Ecb(22, 15), Ecb(13, 16)]), Ecbs(30, [Ecb(7, 24), Ecb(22, 25)])]
    case 26 => [Ecbs(28, [Ecb(19, 46), Ecb(4, 47)]), Ecbs(28, [Ecb(10, 114), Ecb(2, 115)]), Ecbs(30, [Ecb(33, 16), Ecb(4, 17)]), Ecbs(28, [Ecb(28, 22), Ecb(6, 23)])]
    case 27 => [Ecbs(28, [Ecb(22, 45), Ecb(3, 46)]), Ecbs(30, [Ecb(8, 122), Ecb(4, 123)]), Ecbs(30, [Ecb(12, 15), Ecb(28, 16)]), Ecbs(30, [Ecb(8, 23), Ecb(26, 24)])]
    case 28 => [Ecbs(28, [Ecb(3, 45), Ecb(23, 46)]), Ecbs(30, [Ecb(3, 117), Ecb(10, 118)]), Ecbs(30, [Ecb(11, 15), Ecb(31, 16)]), Ecbs(30, [Ecb(4, 24), Ecb(31, 25)])]
    case 29 => [Ecbs(28, [Ecb(21, 45), Ecb(7, 46)]), Ecbs(30, [Ecb(7, 116), Ecb(7, 117)]), Ecbs(30, [Ecb(19, 15), Ecb(26, 16)]), Ecbs(30, [Ecb(1, 32), Ecb(37, 24)])]
    case 30 => [Ecbs(28, [Ecb(19, 47), Ecb(10, 48)]), Ecbs(30, [Ecb(5, 115), Ecb(10, 116)]), Ecbs(30, [Ecb(23, 15), Ecb(25, 16)]), Ecbs(30, [Ecb(15, 24), Ecb(25, 25)])]
    case 31 => [Ecbs(28, [Ecb(2, 46), Ecb(29, 47)]), Ecbs(30, [Ecb(13, 115), Ecb(3, 116)]), Ecbs(30, [Ecb(23, 15), Ecb(28, 16)]), Ecbs(30, [Ecb(42, 24), Ecb(1, 25)])]
    case 32 => [Ecbs(28, [Ecb(10, 46), Ecb(23, 47)]), Ecbs(30, [Ecb(17, 115)]), Ecbs(30, [Ecb(19, 15), Ecb(35, 16)]), Ecbs(30, [Ecb(10, 24), Ecb(35, 25)])]
    case 33 => [Ecbs(28, [Ecb(14, 46), Ecb(21, 47)]), Ecbs(30, [Ecb(17, 115), Ecb(1, 116)]), Ecbs(30, [Ecb(11, 15), Ecb(46, 16)]), Ecbs(30, [Ecb(29, 24), Ecb(19, 25)])]
    case 34 => [Ecbs(28, [Ecb(14, 16), Ecb(23, 47)]), Ecbs(30, [Ecb(13, 115), Ecb(6, 116)]), Ecbs(30, [Ecb(59, 16), Ecb(1, 17)]), Ecbs(30, [Ecb(44, 24), Ecb(7, 25)])]
    case 35 => [Ecbs(28, [Ecb(12, 47), Ecb(26, 48)]), Ecbs(30, [Ecb(12, 121), Ecb(7, 122)]), Ecbs(30, [Ecb(22, 15), Ecb(41, 16)]), Ecbs(30, [Ecb(39, 24), Ecb(14, 25)])]
    case 36 => [Ecbs(28, [Ecb(6, 47), Ecb(34, 48)]), Ecbs(30, [Ecb(6, 121), Ecb(14, 122)]), Ecbs(30, [Ecb(2, 15), Ecb(64, 16)]), Ecbs(30, [Ecb(46, 24), Ecb(10, 25)])]
    case 37 => [Ecbs(28, [Ecb(29, 46), Ecb(14, 47)]), Ecbs(30, [Ecb(17, 122), Ecb(4, 123)]), Ecbs(30, [Ecb(24, 15), Ecb(46, 16)]), Ecbs(30, [Ecb(49, 24), Ecb(10, 25)])]
    case 38 => [Ecbs(28, [Ecb(13, 46), Ecb(32, 47)]), Ecbs(30, [Ecb(4, 122), Ecb(18, 123)]), Ecbs(30, [Ecb(42, 15), Ecb(32, 16)]), Ecbs(30, [Ecb(48, 24), Ecb(14, 25)])]
    case 39 => [Ecbs(28, [Ecb(40, 47), Ecb(7, 48)]), Ecbs(30, [Ecb(20, 117), Ecb(4, 118)]), Ecbs(30, [Ecb(10, 15), Ecb(67, 16)]), Ecbs(30, [Ecb(43, 24), Ecb(22, 25)])]
    case _ => [Ecbs(28, [Ecb(18, 47), Ecb(31, 48)]), Ecbs(30, [Ecb(19, 118), Ecb(6, 119)]), Ecbs(30, [Ecb(20, 15), Ecb(61, 16)]), Ecbs(30, [Ecb(34, 24), Ecb(34, 25)])]
  }

  function NumBlocks(blocks: seq<Ecb>): nat {
    if blocks == [] then 0 else blocks[0].count + NumBlocks(blocks[1..])
  }

  function Codewords(blocks: seq<Ecb>, perBlock: nat): nat {
    if blocks == [] then 0
    else blocks[0].count * (blocks[0].dataCodewords + perBlock) + Codewords(blocks[1..], perBlock)
  }

  /** The source adds up level L alone. */
  function TotalCodewords(v: Version): nat {
    var l := EcBlocks(v)[1];
    Codewords(l.blocks, l.codewordsPerBlock)
  }

  function TotalEcCodewords(v: Version, level: Level): int {
    var e := EcBlocks(v)[level];
    NumBlocks(e.blocks) * e.codewordsPerBlock
  }

  function DataCodewords(v: Version, level: Level): int {
    TotalCodewords(v) - TotalEcCodewords(v, level)
  }

  function MostDataCodewords(v: Version): nat {
    if v <= 9 then 232 else if v <= 26 then 1370 else 2956
  }

  lemma FewBlocks(blocks: seq<Ecb>, perBlock: nat)
    requires |blocks| in {1, 2}
    ensures NumBlocks(blocks) == blocks[0].count + if |blocks| == 2 then blocks[1].count else 0
    ensures Codewords(blocks, perBlock) ==
            blocks[0].count * (blocks[0].dataCodewords + perBlock) +
            if |blocks| == 2 then blocks[1].count * (blocks[1].dataCodewords + perBlock) else 0
  {
    assert NumBlocks([]) == 0 && Codewords([], perBlock) == 0;
    if |blocks| == 1 {
      assert blocks[1..] == [];
    } else {
      assert blocks[1..][1..] == [];
      assert NumBlocks(blocks[1..]) == blocks[1].count;
    }
  }

  function Count(blocks: seq<Ecb>): nat
    requires |blocks| in {1, 2}
  {
    blocks[0].count + if |blocks| == 2 then blocks[1].count else 0
  }

  function Sum(blocks: seq<Ecb>, perBlock: nat): nat
    requires |blocks| in {1, 2}
  {
    blocks[0].count * (blocks[0].dataCodewords + perBlock) +
    if |blocks| == 2 then blocks[1].count * (blocks[1].dataCodewords + perBlock) else 0
  }

  predicate Plain(row: seq<Ecbs>, most: nat)
    requires |row| == 4
  {
    && (|row[0].blocks| in {1, 2} && |row[1].blocks| in {1, 2} && |row[2].blocks| in {1, 2}
        && |row[3].blocks| in {1, 2})
    && var total := Sum(row[1].blocks, row[1].codewordsPerBlock);
       && PlainLevel(row[0], total, most) && PlainLevel(row[1], total, most)
       && PlainLevel(row[2], total, most) && PlainLevel(row[3], total, most)
  }

  predicate PlainLevel(e: Ecbs, total: nat, most: nat)
    requires |e.blocks| in {1, 2}
  {
    1 <= Count(e.blocks) && 9 <= total - Count(e.blocks) * e.codewordsPerBlock <= most
  }

  // One check for each version.
  lemma Row1() ensures Plain(EcBlocks(1), 232) { }
  lemma Row2() ensures Plain(EcBlocks(2), 232) { }
  lemma Row3() ensures Plain(EcBlocks(3), 232) { }
  lemma Row4() ensures Plain(EcBlocks(4), 232) { }
  lemma Row5() ensures Plain(EcBlocks(5), 232) { }
  lemma Row6() ensures Plain(EcBlocks(6), 232) { }
  lemma Row7() ensures Plain(EcBlocks(7), 232) { }
  lemma Row8() ensures Plain(EcBlocks(8), 232) { }
  lemma Row9() ensures Plain(EcBlocks(9), 232) { }
  lemma Row10() ensures Plain(EcBlocks(10), 1370) { }
  lemma Row11() ensures Plain(EcBlocks(11), 1370) { }
  lemma Row12() ensures Plain(EcBlocks(12), 1370) { }
  lemma Row13() ensures Plain(EcBlocks(13), 1370) { }
  lemma Row14() ensures Plain(EcBlocks(14), 1370) { }
  lemma Row15() ensures Plain(EcBlocks(15), 1370) { }
  lemma Row16() ensures Plain(EcBlocks(16), 1370) { }
  lemma Row17() ensures Plain(EcBlocks(17), 1370) { }
  lemma Row18() ensures Plain(EcBlocks(18), 1370) { }
  lemma Row19() ensures Plain(EcBlocks(19), 1370) { }
  lemma Row20() ensures Plain(EcBlocks(20), 1370) { }
  lemma Row21() ensures Plain(EcBlocks(21), 1370) { }
  lemma Row22() ensures Plain(EcBlocks(22), 1370) { }
  lemma Row23() ensures Plain(EcBlocks(23), 1370) { }
  lemma Row24() ensures Plain(EcBlocks(24), 1370) { }
  lemma Row25() ensures Plain(EcBlocks(25), 1370) { }
  lemma Row26() ensures Plain(EcBlocks(26), 1370) { }
  lemma Row27() ensures Plain(EcBlocks(27), 2956) { }
  lemma Row28() ensures Plain(EcBlocks(28), 2956) { }
  lemma Row29() ensures Plain(EcBlocks(29), 2956) { }
  lemma Row30() ensures Plain(EcBlocks(30), 2956) { }
  lemma Row31() ensures Plain(EcBlocks(31), 2956) { }
  lemma Row32() ensures Plain(EcBlocks(32), 2956) { }
  lemma Row33() ensures Plain(EcBlocks(33), 2956) { }
  lemma Row34() ensures Plain(EcBlocks(34), 2956) { }
  lemma Row35() ensures Plain(EcBlocks(35), 2956) { }
  lemma Row36() ensures Plain(EcBlocks(36), 2956) { }
  lemma Row37() ensures Plain(EcBlocks(37), 2956) { }
  lemma Row38() ensures Plain(EcBlocks(38), 2956) { }
  lemma Row39() ensures Plain(EcBlocks(39), 2956) { }
  lemma Row40() ensures Plain(EcBlocks(40), 2956) { }

  lemma PlainRow(v: Version)
    ensures Plain(EcBlocks(v), MostDataCodewords(v))
  {
    hide EcBlocks, Plain;
    match v
    case 1 => Row1();
    case 2 => Row2();
    case 3 => Row3();
    case 4 => Row4();
    case 5 => Row5();
    case 6 => Row6();
    case 7 => Row7();
    case 8 => Row8();
    case 9 => Row9();
    case 10 => Row10();
    case 11 => Row11();
    case 12 => Row12();
    case 13 => Row13();
    case 14 => Row14();
    case 15 => Row15();
    case 16 => Row16();
    case 17 => Row17();
    case 18 => Row18();
    case 19 => Row19();
    case 20 => Row20();
    case 21 => Row21();
    case 22 => Row22();
    case 23 => Row23();
    case 24 => Row24();
    case 25 => Row25();
    case 26 => Row26();
    case 27 => Row27();
    case 28 => Row28();
    case 29 => Row29();
    case 30 => Row30();
    case 31 => Row31();
    case 32 => Row32();
    case 33 => Row33();
    case 34 => Row34();
    case 35 => Row35();
    case 36 => Row36();
    case 37 => Row37();
    case 38 => Row38();
    case 39 => Row39();
    case _ => Row40();
  }

  /** Every version and level has at least nine and at most so many data codewords. */
  lemma DataCodewordsInBounds(v: Version, level: Level)
    ensures 9 <= DataCodewords(v, level) <= MostDataCodewords(v)
    ensures NumBlocks(EcBlocks(v)[level].blocks) >= 1
  {
    hide EcBlocks, NumBlocks, Codewords;
    PlainRow(v);
    var row := EcBlocks(v);
    FewBlocks(row[1].blocks, row[1].codewordsPerBlock);
    FewBlocks(row[level].blocks, row[level].codewordsPerBlock);
  }

  /** Whether so many bits fit a version. */
  predicate Fits(bitCount: nat, v: Version, level: Level) { (bitCount + 7) / 8 <= DataCodewords(v, level) }

  ghost predicate SomeVersionFits(bitCount: nat, level: Level) {
    exists w: Version :: Fits(bitCount, w, level)
  }

  /** The smallest version that fits, or none. */
  method ChooseVersion(bitCount: nat, level: Level) returns (ok: bool, v: Version)
    ensures ok ==> Fits(bitCount, v, level) && forall w: Version :: w < v ==> !Fits(bitCount, w, level)
    ensures ok <==> SomeVersionFits(bitCount, level)
  {
    hide DataCodewords;
    v := 1;
    for w := 1 to 41
      invariant forall u: Version :: u < w ==> !Fits(bitCount, u, level)
    {
      if (bitCount + 7) / 8 <= DataCodewords(w, level) { return true, w; }
    }
    ok := false;
  }
}
