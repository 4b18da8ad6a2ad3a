/**
 Interleaving: data cut into blocks of nearly equal size, check bytes for each, and the bytes
 of all blocks taken in turns; and the parser's way back.
 */
module QrInterleave {
  import opened QrBits
  import opened QrVersions
  import opened QrReaderVersions
  import opened QrBlocks
  import opened QrTurns
  import opened ElemBytes
  import opened GaloisField
  import opened GaloisTables
  import opened Codewords
  import opened RsEncoder

  // ---------------------------------------------------------------------------------------
  // The printer

  /** The bits of bytes held as field elements. */
  function ElemBits(es: seq<Elem>): seq<bool> {
    ByteBits(Numbers(es))
  }

  lemma ElemBitsAppend(a: seq<Elem>, b: seq<Elem>)
    ensures ElemBits(a + b) == ElemBits(a) + ElemBits(b)
  {
    hide ByteBits;
    assert Numbers(a + b) == Numbers(a) + Numbers(b);
    ByteBitsAppend(Numbers(a), Numbers(b));
  }

  lemma ElemBitsOne(a: Elem)
    ensures ElemBits([a]) == NatBits(NumberOf(a), 8)
  {
    hide NatBits;
    var n := Numbers([a]);
    assert n[1..] == [];
    assert ByteBits(n) == NatBits(n[0], 8) + ByteBits(n[1..]);
  }

  method AppendColumns(blocks: seq<seq<Elem>>, max: nat, result0: seq<bool>) returns (result: seq<bool>)
    ensures result == result0 + ElemBits(Columns(blocks, 0, max))
  {
    hide Columns, Column, ElemBits;
    result := result0;
    for i := 0 to max
      invariant result + ElemBits(Columns(blocks, i, max)) == result0 + ElemBits(Columns(blocks, 0, max))
    {
      ColumnsStep(blocks, i, max);
      ElemBitsAppend(Column(blocks, i, 0), Columns(blocks, i + 1, max));
      ghost var before := result;
      result := AppendColumn(blocks, i, result);
      assert before + (ElemBits(Column(blocks, i, 0)) + ElemBits(Columns(blocks, i + 1, max))) ==
             before + ElemBits(Column(blocks, i, 0)) + ElemBits(Columns(blocks, i + 1, max));
    }
    ColumnsStep(blocks, max, max);
    NoBits();
  }

  lemma NoBits()
    ensures ElemBits([]) == []
  {
  }

  method AppendColumn(blocks: seq<seq<Elem>>, i: nat, result0: seq<bool>) returns (result: seq<bool>)
    ensures result == result0 + ElemBits(Column(blocks, i, 0))
  {
    hide Column, ElemBits, NatBits;
    result := result0;
    for j := 0 to |blocks|
      invariant result + ElemBits(Column(blocks, i, j)) == result0 + ElemBits(Column(blocks, i, 0))
    {
      ColumnStep(blocks, i, j);
      if i < |blocks[j]| {
        ElemBitsAppend([blocks[j][i]], Column(blocks, i, j + 1));
        ElemBitsOne(blocks[j][i]);
        result := result + NatBits(NumberOf(blocks[j][i]), 8);
      }
    }
    ColumnDone(blocks, i);
    NoBits();
  }

  /** The blocks of the data, each with check bytes that make it a codeword. */
  ghost predicate Blocks(data: seq<Elem>, total: nat, blocks: nat, datas: seq<seq<Elem>>, ecs: seq<seq<Elem>>)
    requires blocks > 0
  {
    && |datas| == |ecs| <= blocks
    && (forall j :: 0 <= j <= |datas| ==> Offset(total, |data|, blocks, j) <= |data|)
    && forall j :: 0 <= j < |datas| ==> BlockOk(data, total, blocks, j, datas[j], ecs[j])
  }

  ghost predicate BlockOk(data: seq<Elem>, total: nat, blocks: nat, j: nat, d: seq<Elem>, e: seq<Elem>)
    requires blocks > 0 && j < blocks
  {
    var from, sizes := Offset(total, |data|, blocks, j), BlockSizes(total, |data|, blocks, j);
    && from + sizes.data <= |data|
    && d == data[from..from + sizes.data]
    && |e| == sizes.ec && IsCodeword(d + e, |e|)
  }

  /** The bytes of a block, gathered bit by bit. */
  method GatherBytes(bits: seq<bool>, dataBytesOffset: nat, numDataBytes: nat) returns (bytes: seq<Elem>)
    requires |bits| % 8 == 0 && dataBytesOffset + numDataBytes <= |bits| / 8
    ensures bytes == Elems(Bytes(bits))[dataBytesOffset..dataBytesOffset + numDataBytes]
  {
    hide Bytes, ShiftIn, ElemOf;
    bytes := [];
    for j := 0 to numDataBytes
      invariant bytes == Elems(Bytes(bits))[dataBytesOffset..dataBytesOffset + j]
    {
      var k := dataBytesOffset + j;
      var b := bits[8 * k..8 * k + 8];
      ByteAt(bits, k);
      WeightedBits(b);
      bytes := bytes + [ElemOf(
        (if b[0] then 128 else 0) + (if b[1] then 64 else 0) + (if b[2] then 32 else 0) + (if b[3] then 16 else 0) +
        (if b[4] then 8 else 0) + (if b[5] then 4 else 0) + (if b[6] then 2 else 0) + (if b[7] then 1 else 0))];
    }
  }

  /**
   The printer's interleaving. `ok` is false where it panics: exactly when the bits are not as many
   as the version's data codewords take, never in the checks that come after. `datas` and `ecs` are
   the blocks it went through.
   */
  method InterleaveWithECBytes(field: GF256, cache: GeneratorCache, bits: seq<bool>, version: Version, ecLevel: Level)
    returns (ok: bool, result: seq<bool>, ghost datas: seq<seq<Elem>>, ghost ecs: seq<seq<Elem>>)
    requires field.Valid() && cache.Valid()
    modifies cache
    ensures cache.Valid()
    ensures ok <==> |bits| == 8 * DataCodewords(version, ecLevel)
    ensures ok ==> Interleaving(bits, version, ecLevel, datas, ecs) && result == ElemBits(Interleaved(datas, ecs))
  {
    hide IsCodeword, GF256.Valid, Longest, Columns, Bytes, ElemOf, BlockSizes, Offset, DataCodewords, TotalCodewords,
      NumBlocks, EcBlocks, ElemBits, ReaderSizes, Column, ByteBits, NatBits, Interleaving;
    var numTotalBytes, numDataBytes := TotalCodewords(version), DataCodewords(version, ecLevel);
    var numRSBlocks := NumBlocks(EcBlocks(version)[ecLevel].blocks);
    SizesAgree(version, ecLevel);
    ok, result, datas, ecs := true, [], [], [];
    if |bits| != 8 * numDataBytes { return false, [], [], []; }
    ghost var data := Elems(Bytes(bits));
    var dataBytesOffset := 0;
    var maxNumDataBytes, maxNumEcBytes := 0, 0;
    var dataBlocks: seq<seq<Elem>>, ecBlocks: seq<seq<Elem>> := [], [];
    LongestNone();
    OffsetStep(numTotalBytes, numDataBytes, numRSBlocks, 0);
    for i := 0 to numRSBlocks
      invariant cache.Valid()
      invariant |dataBlocks| == i && Blocks(data, numTotalBytes, numRSBlocks, dataBlocks, ecBlocks)
      invariant dataBytesOffset == Offset(numTotalBytes, numDataBytes, numRSBlocks, i)
      invariant maxNumDataBytes == Longest(dataBlocks) && maxNumEcBytes == Longest(ecBlocks)
    {
      var sizes := BlockSizes(numTotalBytes, numDataBytes, numRSBlocks, i);
      SizesPositive(version, ecLevel, i);
      BlockWithin(numTotalBytes, numDataBytes, numRSBlocks, i);
      OffsetStep(numTotalBytes, numDataBytes, numRSBlocks, i);
      var bytes := GatherBytes(bits, dataBytesOffset, sizes.data);
      var ec := GenerateECBytes(field, cache, bytes, sizes.ec);
      OneMoreBlock(data, numTotalBytes, numRSBlocks, dataBlocks, ecBlocks, bytes, ec);
      LongestStep(dataBlocks, bytes);
      LongestStep(ecBlocks, ec);
      dataBlocks, ecBlocks := dataBlocks + [bytes], ecBlocks + [ec];
      if sizes.data > maxNumDataBytes { maxNumDataBytes := sizes.data; }
      if sizes.ec > maxNumEcBytes { maxNumEcBytes := sizes.ec; }
      dataBytesOffset := dataBytesOffset + sizes.data;
    }
    BlocksTakeAllData(numTotalBytes, numDataBytes, numRSBlocks);
    if numDataBytes != dataBytesOffset { return false, [], [], []; }
    datas, ecs := dataBlocks, ecBlocks;
    result := AppendColumns(dataBlocks, maxNumDataBytes, []);
    ElemBitsAppend(Columns(datas, 0, maxNumDataBytes), Columns(ecs, 0, maxNumEcBytes));
    result := AppendColumns(ecBlocks, maxNumEcBytes, result);
    IsInterleaving(bits, version, ecLevel, datas, ecs);
    InterleavingSize(bits, version, ecLevel, datas, ecs);
    if |result| != numTotalBytes * 8 { return false, [], [], []; }
  }

  /** What the printer went through: blocks of the data, in codewords. */
  ghost predicate Interleaving(bits: seq<bool>, v: Version, level: Level, datas: seq<seq<Elem>>, ecs: seq<seq<Elem>>) {
    && |bits| == 8 * DataCodewords(v, level) && BlockCount(v, level) > 0
    && |datas| == BlockCount(v, level)
    && Blocks(Elems(Bytes(bits)), TotalCodewords(v), BlockCount(v, level), datas, ecs)
  }

  lemma OffsetStep(total: nat, data: nat, blocks: nat, id: nat)
    requires blocks > 0 && id < blocks
    ensures Offset(total, data, blocks, 0) == 0
    ensures Offset(total, data, blocks, id + 1) ==
      Offset(total, data, blocks, id) + BlockSizes(total, data, blocks, id).data
  {
  }

  lemma SizesPositive(v: Version, level: Level, i: nat)
    requires i < BlockCount(v, level) && DataCodewords(v, level) >= 0
    ensures
      var sizes := BlockSizes(TotalCodewords(v), DataCodewords(v, level), BlockCount(v, level), i);
      sizes.data > 0 && 1 <= sizes.ec <= 30
  {
    hide ReaderSizes, NumBlocks, EcBlocks, TotalCodewords, DataCodewords, CheckCount, BlockSizes;
    SizesAgree(v, level);
    var s := ShapeOf(v, level);
  }

  lemma OneMoreBlock(data: seq<Elem>, total: nat, blocks: nat, datas: seq<seq<Elem>>, ecs: seq<seq<Elem>>,
      d: seq<Elem>, e: seq<Elem>)
    requires blocks > 0 && |datas| < blocks && Blocks(data, total, blocks, datas, ecs)
    requires Offset(total, |data|, blocks, |datas| + 1) <= |data|
    requires BlockOk(data, total, blocks, |datas|, d, e)
    ensures Blocks(data, total, blocks, datas + [d], ecs + [e])
  {
    hide Offset, BlockOk;
  }

  lemma IsInterleaving(bits: seq<bool>, v: Version, level: Level, datas: seq<seq<Elem>>, ecs: seq<seq<Elem>>)
    requires |bits| == 8 * DataCodewords(v, level) && BlockCount(v, level) > 0
    requires |datas| == BlockCount(v, level)
    requires Blocks(Elems(Bytes(bits)), TotalCodewords(v), BlockCount(v, level), datas, ecs)
    ensures Interleaving(bits, v, level, datas, ecs)
  {
  }

  /** The printer's blocks have the shape of the version. */
  lemma InterleavingShaped(bits: seq<bool>, v: Version, level: Level, datas: seq<seq<Elem>>, ecs: seq<seq<Elem>>)
    requires Interleaving(bits, v, level, datas, ecs)
    ensures Shaped(datas, ecs, ShapeOf(v, level), CheckCount(v, level))
  {
    hide IsCodeword, Offset, Bytes, ElemOf, BlockSizes, DataCodewords, TotalCodewords, NumBlocks, EcBlocks, ReaderSizes;
    SizesAgree(v, level);
    var s := ShapeOf(v, level);
    forall j | 0 <= j < |datas|
      ensures |datas[j]| == ReaderSizes(v, level)[j] && |ecs[j]| == CheckCount(v, level)
    {
      assert BlockOk(Elems(Bytes(bits)), TotalCodewords(v), BlockCount(v, level), j, datas[j], ecs[j]);
    }
  }

  lemma ShapeTotal(v: Version, level: Level)
    ensures var s := ShapeOf(v, level); TotalCodewords(v) == s.n * (s.size + CheckCount(v, level)) + (s.n - s.start)
  {
    hide TotalCodewords, DataCodewords, CheckCount, BlockCount, ReaderSizes, ReaderEcBlocks;
    assert IsShape(v, level, ShapeOf(v, level));
  }

  lemma ElemBitsLength(es: seq<Elem>)
    ensures |ElemBits(es)| == 8 * |es|
  {
  }

  lemma InterleavingSize(bits: seq<bool>, v: Version, level: Level, datas: seq<seq<Elem>>, ecs: seq<seq<Elem>>)
    requires Interleaving(bits, v, level, datas, ecs)
    ensures |Interleaved(datas, ecs)| == TotalCodewords(v)
    ensures |ElemBits(Interleaved(datas, ecs))| == 8 * TotalCodewords(v)
  {
    hide *;
    InterleavingShaped(bits, v, level, datas, ecs);
    StreamLength(datas, ecs, ShapeOf(v, level), CheckCount(v, level));
    ShapeTotal(v, level);
    ElemBitsLength(Interleaved(datas, ecs));
  }
}
