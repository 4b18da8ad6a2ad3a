/**
 The reader's table of versions against the printer's. The two were typed in separately, and three
 data counts of the printer's differ; the printer never uses them.
 */
module QrReaderVersions {
  import opened QrVersions

  /** Levels in the order of the reader's table: L, M, Q, H. */
  function ReaderEcBlocks(v: Version): (row: seq<Ecbs>)
    ensures |row| == 4
  {
    match v
    case 1 => [Ecbs(7, [Ecb(1, 19)]), Ecbs(10, [Ecb(1, 16)]), Ecbs(13, [Ecb(1, 13)]), Ecbs(17, [Ecb(1, 9)])]
    case 2 => [Ecbs(10, [Ecb(1, 34)]), Ecbs(16, [Ecb(1, 28)]), Ecbs(22, [Ecb(1, 22)]), Ecbs(28, [Ecb(1, 16)])]
    case 3 => [Ecbs(15, [Ecb(1, 55)]), Ecbs(26, [Ecb(1, 44)]), Ecbs(18, [Ecb(2, 17)]), Ecbs(22, [Ecb(2, 13)])]
    case 4 => [Ecbs(20, [Ecb(1, 80)]), Ecbs(18, [Ecb(2, 32)]), Ecbs(26, [Ecb(2, 24)]), Ecbs(16, [Ecb(4, 9)])]
    case 5 => [Ecbs(26, [Ecb(1, 108)]), Ecbs(24, [Ecb(2, 43)]), Ecbs(18, [Ecb(2, 15), Ecb(2, 16)]), Ecbs(22, [Ecb(2, 11), Ecb(2, 12)])]
    case 6 => [Ecbs(18, [Ecb(2, 68)]), Ecbs(16, [Ecb(4, 27)]), Ecbs(24, [Ecb(4, 19)]), Ecbs(28, [Ecb(4, 15)])]
    case 7 => [Ecbs(20, [Ecb(2, 78)]), Ecbs(18, [Ecb(4, 31)]), Ecbs(18, [Ecb(2, 14), Ecb(4, 15)]), Ecbs(26, [Ecb(4, 13), Ecb(1, 14)])]
    case 8 => [Ecbs(24, [Ecb(2, 97)]), Ecbs(22, [Ecb(2, 38), Ecb(2, 39)]), Ecbs(22, [Ecb(4, 18), Ecb(2, 19)]), Ecbs(26, [Ecb(4, 14), Ecb(2, 15)])]
    case 9 => [Ecbs(30, [Ecb(2, 116)]), Ecbs(22, [Ecb(3, 36), Ecb(2, 37)]), Ecbs(20, [Ecb(4, 16), Ecb(4, 17)]), Ecbs(24, [Ecb(4, 12), Ecb(4, 13)])]
    case 10 => [Ecbs(18, [Ecb(2, 68), Ecb(2, 69)]), Ecbs(26, [Ecb(4, 43), Ecb(1, 44)]), Ecbs(24, [Ecb(6, 19), Ecb(2, 20)]), Ecbs(28, [Ecb(6, 15), Ecb(2, 16)])]
    case 11 => [Ecbs(20, [Ecb(4, 81)]), Ecbs(30, [Ecb(1, 50), Ecb(4, 51)]), Ecbs(28, [Ecb(4, 22), Ecb(4, 23)]), Ecbs(24, [Ecb(3, 12), Ecb(8, 13)])]
    case 12 => [Ecbs(24, [Ecb(2, 92), Ecb(2, 93)]), Ecbs(22, [Ecb(6, 36), Ecb(2, 37)]), Ecbs(26, [Ecb(4, 20), Ecb(6, 21)]), Ecbs(28, [Ecb(7, 14), Ecb(4, 15)])]
    case 13 => [Ecbs(26, [Ecb(4, 107)]), Ecbs(22, [Ecb(8, 37), Ecb(1, 38)]), Ecbs(24, [Ecb(8, 20), Ecb(4, 21)]), Ecbs(22, [Ecb(12, 11), Ecb(4, 12)])]
    case 14 => [Ecbs(30, [Ecb(3, 115), Ecb(1, 116)]), Ecbs(24, [Ecb(4, 40), Ecb(5, 41)]), Ecbs(20, [Ecb(11, 16), Ecb(5, 17)]), Ecbs(24, [Ecb(11, 12), Ecb(5, 13)])]
    case 15 => [Ecbs(22, [Ecb(5, 87), Ecb(1, 88)]), Ecbs(24, [Ecb(5, 41), Ecb(5, 42)]), Ecbs(30, [Ecb(5, 24), Ecb(7, 25)]), Ecbs(24, [Ecb(11, 12), Ecb(7, 13)])]
    case 16 => [Ecbs(24, [Ecb(5, 98), Ecb(1, 99)]), Ecbs(28, [Ecb(7, 45), Ecb(3, 46)]), Ecbs(24, [Ecb(15, 19), Ecb(2, 20)]), Ecbs(30, [Ecb(3, 15), Ecb(13, 16)])]
    case 17 => [Ecbs(28, [Ecb(1, 107), Ecb(5, 108)]), Ecbs(28, [Ecb(10, 46), Ecb(1, 47)]), Ecbs(28, [Ecb(1, 22), Ecb(15, 23)]), Ecbs(28, [Ecb(2, 14), Ecb(17, 15)])]
    case 18 => [Ecbs(30, [Ecb(5, 120), Ecb(1, 121)]), Ecbs(26, [Ecb(9, 43), Ecb(4, 44)]), Ecbs(28, [Ecb(17, 22), Ecb(1, 23)]), Ecbs(28, [Ecb(2, 14), Ecb(19, 15)])]
    case 19 => [Ecbs(28, [Ecb(3, 113), Ecb(4, 114)]), Ecbs(26, [Ecb(3, 44), Ecb(11, 45)]), Ecbs(26, [Ecb(17, 21), Ecb(4, 22)]), Ecbs(26, [Ecb(9, 13), Ecb(16, 14)])]
    case 20 => [Ecbs(28, [Ecb(3, 107), Ecb(5, 108)]), Ecbs(26, [Ecb(3, 41), Ecb(13, 42)]), Ecbs(30, [Ecb(15, 24), Ecb(5, 25)]), Ecbs(28, [Ecb(15, 15), Ecb(10, 16)])]
    case 21 => [Ecbs(28, [Ecb(4, 116), Ecb(4, 117)]), Ecbs(26, [Ecb(17, 42)]), Ecbs(28, [Ecb(17, 22), Ecb(6, 23)]), Ecbs(30, [Ecb(19, 16), Ecb(6, 17)])]
    case 22 => [Ecbs(28, [Ecb(2, 111), Ecb(7, 112)]), Ecbs(28, [Ecb(17, 46)]), Ecbs(30, [Ecb(7, 24), Ecb(16, 25)]), Ecbs(24, [Ecb(34, 13)])]
    case 23 => [Ecbs(30, [Ecb(4, 121), Ecb(5, 122)]), Ecbs(28, [Ecb(4, 47), Ecb(14, 48)]), Ecbs(30, [Ecb(11, 24), Ecb(14, 25)]), Ecbs(30, [Ecb(16, 15), Ecb(14, 16)])]
    case 24 => [Ecbs(30, [Ecb(6, 117), Ecb(4, 118)]), Ecbs(28, [Ecb(6, 45), Ecb(14, 46)]), Ecbs(30, [Ecb(11, 24), Ecb(16, 25)]), Ecbs(30, [Ecb(30, 16), Ecb(2, 17)])]
    case 25 => [Ecbs(26, [Ecb(8, 106), Ecb(4, 107)]), Ecbs(28, [Ecb(8, 47), Ecb(13, 48)]), Ecbs(30, [Ecb(7, 24), Ecb(22, 25)]), Ecbs(30, [Ecb(22, 15), Ecb(13, 16)])]
    case 26 => [Ecbs(28, [Ecb(10, 114), Ecb(2, 115)]), Ecbs(28, [Ecb(19, 46), Ecb(4, 47)]), Ecbs(28, [Ecb(28, 22), Ecb(6, 23)]), Ecbs(30, [Ecb(33, 16), Ecb(4, 17)])]
    case 27 => [Ecbs(30, [Ecb(8, 122), Ecb(4, 123)]), Ecbs(28, [Ecb(22, 45), Ecb(3, 46)]), Ecbs(30, [Ecb(8, 23), Ecb(26, 24)]), Ecbs(30, [Ecb(12, 15), Ecb(28, 16)])]
    case 28 => [Ecbs(30, [Ecb(3, 117), Ecb(10, 118)]), Ecbs(28, [Ecb(3, 45), Ecb(23, 46)]), Ecbs(30, [Ecb(4, 24), Ecb(31, 25)]), Ecbs(30, [Ecb(11, 15), Ecb(31, 16)])]
    case 29 => [Ecbs(30, [Ecb(7, 116), Ecb(7, 117)]), Ecbs(28, [Ecb(21, 45), Ecb(7, 46)]), Ecbs(30, [Ecb(1, 23), Ecb(37, 24)]), Ecbs(30, [Ecb(19, 15), Ecb(26, 16)])]
    case 30 => [Ecbs(30, [Ecb(5, 115), Ecb(10, 116)]), Ecbs(28, [Ecb(19, 47), Ecb(10, 48)]), Ecbs(30, [Ecb(15, 24), Ecb(25, 25)]), Ecbs(30, [Ecb(23, 15), Ecb(25, 16)])]
    case 31 => [Ecbs(30, [Ecb(13, 115), Ecb(3, 116)]), Ecbs(28, [Ecb(2, 46), Ecb(29, 47)]), Ecbs(30, [Ecb(42, 24), Ecb(1, 25)]), Ecbs(30, [Ecb(23, 15), Ecb(28, 16)])]
    case 32 => [Ecbs(30, [Ecb(17, 115)]), Ecbs(28, [Ecb(10, 46), Ecb(23, 47)]), Ecbs(30, [Ecb(10, 24), Ecb(35, 25)]), Ecbs(30, [Ecb(19, 15), Ecb(35, 16)])]
    case 33 => [Ecbs(30, [Ecb(17, 115), Ecb(1, 116)]), Ecbs(28, [Ecb(14, 46), Ecb(21, 47)]), Ecbs(30, [Ecb(29, 24), Ecb(19, 25)]), Ecbs(30, [Ecb(11, 15), Ecb(46, 16)])]
    case 34 => [Ecbs(30, [Ecb(13, 115), Ecb(6, 116)]), Ecbs(28, [Ecb(14, 46), Ecb(23, 47)]), Ecbs(30, [Ecb(44, 24), Ecb(7, 25)]), Ecbs(30, [Ecb(59, 16), Ecb(1, 17)])]
    case 35 => [Ecbs(30, [Ecb(12, 121), Ecb(7, 122)]), Ecbs(28, [Ecb(12, 47), Ecb(26, 48)]), Ecbs(30, [Ecb(39, 24), Ecb(14, 25)]), Ecbs(30, [Ecb(22, 15), Ecb(41, 16)])]
    case 36 => [Ecbs(30, [Ecb(6, 121), Ecb(14, 122)]), Ecbs(28, [Ecb(6, 47), Ecb(34, 48)]), Ecbs(30, [Ecb(46, 24), Ecb(10, 25)]), Ecbs(30, [Ecb(2, 15), Ecb(64, 16)])]
    case 37 => [Ecbs(30, [Ecb(17, 122), Ecb(4, 123)]), Ecbs(28, [Ecb(29, 46), Ecb(14, 47)]), Ecbs(30, [Ecb(49, 24), Ecb(10, 25)]), Ecbs(30, [Ecb(24, 15), Ecb(46, 16)])]
    case 38 => [Ecbs(30, [Ecb(4, 122), Ecb(18, 123)]), Ecbs(28, [Ecb(13, 46), Ecb(32, 47)]), Ecbs(30, [Ecb(48, 24), Ecb(14, 25)]), Ecbs(30, [Ecb(42, 15), Ecb(32, 16)])]
    case 39 => [Ecbs(30, [Ecb(20, 117), Ecb(4, 118)]), Ecbs(28, [Ecb(40, 47), Ecb(7, 48)]), Ecbs(30, [Ecb(43, 24), Ecb(22, 25)]), Ecbs(30, [Ecb(10, 15), Ecb(67, 16)])]
    case _ => [Ecbs(30, [Ecb(19, 118), Ecb(6, 119)]), Ecbs(28, [Ecb(18, 47), Ecb(31, 48)]), Ecbs(30, [Ecb(34, 24), Ecb(34, 25)]), Ecbs(30, [Ecb(20, 15), Ecb(61, 16)])]
  }

  /** Where the reader's table keeps a level. */
  function Ordinal(level: Level): nat {
    match level case 0 => 1 case 1 => 0 case 2 => 3 case _ => 2
  }

  function ReaderTotalCodewords(v: Version): nat {
    var l := ReaderEcBlocks(v)[0];
    Codewords(l.blocks, l.codewordsPerBlock)
  }

  function Repeated(n: nat, count: nat): (s: seq<nat>)
    ensures |s| == count && forall k :: 0 <= k < count ==> s[k] == n
  {
    if count == 0 then [] else [n] + Repeated(n, count - 1)
  }

  /** The data count of each block. */
  function Expanded(blocks: seq<Ecb>): seq<nat> {
    if blocks == [] then [] else Repeated(blocks[0].dataCodewords, blocks[0].count) + Expanded(blocks[1..])
  }

  function ReaderSizes(v: Version, level: Level): seq<nat> {
    Expanded(ReaderEcBlocks(v)[Ordinal(level)].blocks)
  }

  function CheckCount(v: Version, level: Level): nat {
    EcBlocks(v)[level].codewordsPerBlock
  }

  // ---------------------------------------------------------------------------------------
  // The two tables

  /** The levels where the data counts of the printer's table do not add up. */
  function Slips(v: Version): set<nat> {
    if v == 19 || v == 34 then {0} else if v == 29 then {3} else {}
  }

  predicate LevelMatches(printer: Ecbs, reader: Ecbs, total: nat, slip: bool) {
    && |printer.blocks| in {1, 2} && |reader.blocks| in {1, 2}
    && 1 <= printer.codewordsPerBlock == reader.codewordsPerBlock <= 30
    && reader.blocks[0].count > 0 && reader.blocks[0].dataCodewords > 0
    && reader.blocks[0].dataCodewords + 1 + reader.codewordsPerBlock <= 255
    && (|reader.blocks| == 2 ==> reader.blocks[1].dataCodewords == reader.blocks[0].dataCodewords + 1)
    && Count(printer.blocks) == Count(reader.blocks)
    && Sum(reader.blocks, reader.codewordsPerBlock) == total
    && (slip <==> Sum(printer.blocks, printer.codewordsPerBlock) != total)
  }

  predicate Matches(v: Version, printer: seq<Ecbs>, reader: seq<Ecbs>)
    requires |printer| == 4 && |reader| == 4
  {
    && |printer[1].blocks| in {1, 2}
    && var total := Sum(printer[1].blocks, printer[1].codewordsPerBlock);
       && LevelMatches(printer[0], reader[1], total, 0 in Slips(v))
       && LevelMatches(printer[1], reader[0], total, 1 in Slips(v))
       && LevelMatches(printer[2], reader[3], total, 2 in Slips(v))
       && LevelMatches(printer[3], reader[2], total, 3 in Slips(v))
  }

  // One check for each version.
  lemma Row1() ensures Matches(1, EcBlocks(1), ReaderEcBlocks(1)) { }
  lemma Row2() ensures Matches(2, EcBlocks(2), ReaderEcBlocks(2)) { }
  lemma Row3() ensures Matches(3, EcBlocks(3), ReaderEcBlocks(3)) { }
  lemma Row4() ensures Matches(4, EcBlocks(4), ReaderEcBlocks(4)) { }
  lemma Row5() ensures Matches(5, EcBlocks(5), ReaderEcBlocks(5)) { }
  lemma Row6() ensures Matches(6, EcBlocks(6), ReaderEcBlocks(6)) { }
  lemma Row7() ensures Matches(7, EcBlocks(7), ReaderEcBlocks(7)) { }
  lemma Row8() ensures Matches(8, EcBlocks(8), ReaderEcBlocks(8)) { }
  lemma Row9() ensures Matches(9, EcBlocks(9), ReaderEcBlocks(9)) { }
  lemma Row10() ensures Matches(10, EcBlocks(10), ReaderEcBlocks(10)) { }
  lemma Row11() ensures Matches(11, EcBlocks(11), ReaderEcBlocks(11)) { }
  lemma Row12() ensures Matches(12, EcBlocks(12), ReaderEcBlocks(12)) { }
  lemma Row13() ensures Matches(13, EcBlocks(13), ReaderEcBlocks(13)) { }
  lemma Row14() ensures Matches(14, EcBlocks(14), ReaderEcBlocks(14)) { }
  lemma Row15() ensures Matches(15, EcBlocks(15), ReaderEcBlocks(15)) { }
  lemma Row16() ensures Matches(16, EcBlocks(16), ReaderEcBlocks(16)) { }
  lemma Row17() ensures Matches(17, EcBlocks(17), ReaderEcBlocks(17)) { }
  lemma Row18() ensures Matches(18, EcBlocks(18), ReaderEcBlocks(18)) { }
  lemma Row19() ensures Matches(19, EcBlocks(19), ReaderEcBlocks(19)) { }
  lemma Row20() ensures Matches(20, EcBlocks(20), ReaderEcBlocks(20)) { }
  lemma Row21() ensures Matches(21, EcBlocks(21), ReaderEcBlocks(21)) { }
  lemma Row22() ensures Matches(22, EcBlocks(22), ReaderEcBlocks(22)) { }
  lemma Row23() ensures Matches(23, EcBlocks(23), ReaderEcBlocks(23)) { }
  lemma Row24() ensures Matches(24, EcBlocks(24), ReaderEcBlocks(24)) { }
  lemma Row25() ensures Matches(25, EcBlocks(25), ReaderEcBlocks(25)) { }
  lemma Row26() ensures Matches(26, EcBlocks(26), ReaderEcBlocks(26)) { }
  lemma Row27() ensures Matches(27, EcBlocks(27), ReaderEcBlocks(27)) { }
  lemma Row28() ensures Matches(28, EcBlocks(28), ReaderEcBlocks(28)) { }
  lemma Row29() ensures Matches(29, EcBlocks(29), ReaderEcBlocks(29)) { }
  lemma Row30() ensures Matches(30, EcBlocks(30), ReaderEcBlocks(30)) { }
  lemma Row31() ensures Matches(31, EcBlocks(31), ReaderEcBlocks(31)) { }
  lemma Row32() ensures Matches(32, EcBlocks(32), ReaderEcBlocks(32)) { }
  lemma Row33() ensures Matches(33, EcBlocks(33), ReaderEcBlocks(33)) { }
  lemma Row34() ensures Matches(34, EcBlocks(34), ReaderEcBlocks(34)) { }
  lemma Row35() ensures Matches(35, EcBlocks(35), ReaderEcBlocks(35)) { }
  lemma Row36() ensures Matches(36, EcBlocks(36), ReaderEcBlocks(36)) { }
  lemma Row37() ensures Matches(37, EcBlocks(37), ReaderEcBlocks(37)) { }
  lemma Row38() ensures Matches(38, EcBlocks(38), ReaderEcBlocks(38)) { }
  lemma Row39() ensures Matches(39, EcBlocks(39), ReaderEcBlocks(39)) { }
  lemma Row40() ensures Matches(40, EcBlocks(40), ReaderEcBlocks(40)) { }

  lemma RowMatches(v: Version)
    ensures Matches(v, EcBlocks(v), ReaderEcBlocks(v))
  {
    hide EcBlocks, ReaderEcBlocks, Matches;
    match v
    case 1 => Row1();
    case 2 => Row2();
    case 3 => Row3();
    case 4 => Row4();
    case 5 => Row5();
    case 6 => Row6();
    case 7 => Row7();
    case 8 => Row8();
    case 9 => Row9();
    case 10 => Row10();
    case 11 => Row11();
    case 12 => Row12();
    case 13 => Row13();
    case 14 => Row14();
    case 15 => Row15();
    case 16 => Row16();
    case 17 => Row17();
    case 18 => Row18();
    case 19 => Row19();
    case 20 => Row20();
    case 21 => Row21();
    case 22 => Row22();
    case 23 => Row23();
    case 24 => Row24();
    case 25 => Row25();
    case 26 => Row26();
    case 27 => Row27();
    case 28 => Row28();
    case 29 => Row29();
    case 30 => Row30();
    case 31 => Row31();
    case 32 => Row32();
    case 33 => Row33();
    case 34 => Row34();
    case 35 => Row35();
    case 36 => Row36();
    case 37 => Row37();
    case 38 => Row38();
    case 39 => Row39();
    case _ => Row40();
  }

  /** What the rows say about one level. */
  lemma LevelOf(v: Version, level: Level)
    ensures |EcBlocks(v)[1].blocks| in {1, 2}
    ensures LevelMatches(EcBlocks(v)[level], ReaderEcBlocks(v)[Ordinal(level)],
                         Sum(EcBlocks(v)[1].blocks, EcBlocks(v)[1].codewordsPerBlock), level in Slips(v))
    ensures LevelMatches(EcBlocks(v)[1], ReaderEcBlocks(v)[0],
                         Sum(EcBlocks(v)[1].blocks, EcBlocks(v)[1].codewordsPerBlock), false)
  {
    hide EcBlocks, ReaderEcBlocks, LevelMatches;
    RowMatches(v);
  }

  /** The printer's data counts add up to the symbol's size at every level but three. */
  lemma TableAddsUp(v: Version, level: Level)
    ensures
      Codewords(EcBlocks(v)[level].blocks, CheckCount(v, level)) == TotalCodewords(v) <==>
      (v, level) !in {(19, 0), (29, 3), (34, 0)}
  {
    hide EcBlocks, ReaderEcBlocks, Codewords;
    LevelOf(v, level);
    FewBlocks(EcBlocks(v)[level].blocks, CheckCount(v, level));
    FewBlocks(EcBlocks(v)[1].blocks, EcBlocks(v)[1].codewordsPerBlock);
  }

  /** Both ends take a version for the same number of codewords. */
  lemma TotalsAgree(v: Version)
    ensures ReaderTotalCodewords(v) == TotalCodewords(v)
  {
    hide EcBlocks, ReaderEcBlocks, Codewords;
    LevelOf(v, 1);
    FewBlocks(ReaderEcBlocks(v)[0].blocks, ReaderEcBlocks(v)[0].codewordsPerBlock);
    FewBlocks(EcBlocks(v)[1].blocks, EcBlocks(v)[1].codewordsPerBlock);
  }
}
