/**
 The whole way: a content printed as codewords, and a matrix of modules read back to the content,
 through block errors up to half the number of check bytes.
 */
module QrDecoder {
  import opened Octets
  import opened QrBits
  import opened QrVersions
  import opened QrReaderVersions
  import opened QrBlocks
  import opened QrTurns
  import opened QrInterleave
  import opened QrDeinterleave
  import opened QrContent
  import QrReader
  import QrSegments
  import QrPlacement
  import QrGrid
  import opened ElemBytes
  import opened GaloisField
  import opened GaloisTables
  import opened Codewords
  import RsEncoder
  import opened RsDecoder

  // ---------------------------------------------------------------------------------------
  // Blocks

  /** What was read of a block differs from what was printed in no more bytes than can be corrected. */
  ghost predicate BlockReadable(codewords: seq<Elem>, sent: seq<Elem>, ec: nat) {
    |codewords| == |sent| && Distance(codewords, sent) <= ec / 2
  }

  /** The same of every block of a symbol. */
  ghost predicate Readable(raw: seq<Elem>, v: Version, level: Level, datas: seq<seq<Elem>>, ecs: seq<seq<Elem>>) {
    && |raw| == ReaderTotalCodewords(v)
    && |datas| == |ecs| == |ReaderSizes(v, level)|
    && forall j :: 0 <= j < |datas| ==>
         BlockReadable(BlockOf(raw, v, level, j).codewords, datas[j] + ecs[j], CheckCount(v, level))
  }

  /**
   Corrects one block; only the data bytes are copied back. `sent` is the block as printed.
   */
  method CorrectErrors(field: GF256, codewordBytes: seq<Elem>, numDataCodewords: nat, ghost sent: seq<Elem>)
    returns (outcome: Outcome, corrected: seq<Elem>)
    requires field.Valid() && numDataCodewords <= |codewordBytes| <= numDataCodewords + 256 && |codewordBytes| > 0
    ensures |corrected| == |codewordBytes| && corrected[numDataCodewords..] == codewordBytes[numDataCodewords..]
    ensures Near(codewordBytes, sent, |codewordBytes| - numDataCodewords) ==>
      outcome == Done && corrected[..numDataCodewords] == sent[..numDataCodewords]
    ensures outcome != Done ==> corrected == codewordBytes
  {
    hide Near, IsCodeword, GF256.Valid;
    var numCodewords := |codewordBytes|;
    var codewordsInts := new Elem[numCodewords](i requires 0 <= i < numCodewords => codewordBytes[i]);
    assert codewordsInts[..] == codewordBytes;
    outcome := Decode(field, codewordsInts, numCodewords - numDataCodewords, sent);
    corrected := codewordBytes;
    if outcome != Done { return; }
    for i := 0 to numDataCodewords
      invariant |corrected| == |codewordBytes| && corrected[..i] == codewordsInts[..i] &&
        corrected[i..] == codewordBytes[i..]
    {
      corrected := corrected[i := codewordsInts[i]];
    }
  }

  /** A readable block is near enough to the codeword printed. */
  lemma ReadableIsNear(bits: seq<bool>, raw: seq<Elem>, v: Version, level: Level, datas: seq<seq<Elem>>,
      ecs: seq<seq<Elem>>, j: nat)
    requires Interleaving(bits, v, level, datas, ecs) && Readable(raw, v, level, datas, ecs) && j < |datas|
    ensures
      var b := BlockOf(raw, v, level, j);
      && b.numDataCodewords == |datas[j]| && |b.codewords| == |datas[j]| + CheckCount(v, level)
      && Near(b.codewords, datas[j] + ecs[j], CheckCount(v, level))
  {
    hide IsCodeword, Offset, Bytes, ElemOf, BlockSizes, DataCodewords, TotalCodewords, NumBlocks, EcBlocks,
        ReaderSizes, DataPart, CheckPart,
      Distance, ReaderTotalCodewords;
    InterleavingShaped(bits, v, level, datas, ecs);
    assert BlockOk(Elems(Bytes(bits)), TotalCodewords(v), BlockCount(v, level), j, datas[j], ecs[j]);
    assert BlockReadable(BlockOf(raw, v, level, j).codewords, datas[j] + ecs[j], CheckCount(v, level));
    assert IsShape(v, level, ShapeOf(v, level));
  }

  /** The sizes of a block of the parser, whatever was read. */
  lemma BlockSize(raw: seq<Elem>, v: Version, level: Level, j: nat)
    requires j < |ReaderSizes(v, level)|
    ensures
      var b := BlockOf(raw, v, level, j);
      0 < b.numDataCodewords <= |b.codewords| <= b.numDataCodewords + 256
  {
    hide DataCodewords, TotalCodewords, NumBlocks, EcBlocks, ReaderSizes, At;
    assert IsShape(v, level, ShapeOf(v, level));
  }

  /** The data of the first blocks is the data up to where the next one starts. */
  lemma DataSoFar(bits: seq<bool>, v: Version, level: Level, datas: seq<seq<Elem>>, ecs: seq<seq<Elem>>, j: nat)
    requires Interleaving(bits, v, level, datas, ecs) && j < |datas|
    ensures
      var data, total, n := Elems(Bytes(bits)), TotalCodewords(v), BlockCount(v, level);
      && Offset(total, |data|, n, j) <= Offset(total, |data|, n, j + 1) <= |data|
      && data[..Offset(total, |data|, n, j)] + datas[j] == data[..Offset(total, |data|, n, j + 1)]
  {
    hide IsCodeword, Offset, Bytes, ElemOf, BlockSizes, DataCodewords, TotalCodewords, NumBlocks, EcBlocks;
    OffsetStep(TotalCodewords(v), |Bytes(bits)|, BlockCount(v, level), j);
    assert BlockOk(Elems(Bytes(bits)), TotalCodewords(v), BlockCount(v, level), j, datas[j], ecs[j]);
  }

  lemma DataBounds(bits: seq<bool>, v: Version, level: Level, datas: seq<seq<Elem>>, ecs: seq<seq<Elem>>)
    requires Interleaving(bits, v, level, datas, ecs)
    ensures
      var data, total, n := Elems(Bytes(bits)), TotalCodewords(v), BlockCount(v, level);
      n > 0 && |datas| == n && Offset(total, |data|, n, 0) == 0 && Offset(total, |data|, n, n) == |data| &&
        |bits| % 8 == 0
  {
    hide IsCodeword, Offset, Bytes, ElemOf, BlockSizes, DataCodewords, TotalCodewords, NumBlocks, EcBlocks, ReaderSizes,
      Blocks;
    SizesAgree(v, level);
    OffsetStep(TotalCodewords(v), |Bytes(bits)|, BlockCount(v, level), 0);
    BlocksTakeAllData(TotalCodewords(v), |Bytes(bits)|, BlockCount(v, level));
  }

  lemma ReadableLength(raw: seq<Elem>, v: Version, level: Level, datas: seq<seq<Elem>>, ecs: seq<seq<Elem>>)
    requires Readable(raw, v, level, datas, ecs)
    ensures |raw| == ReaderTotalCodewords(v) && |datas| == |ecs| == |ReaderSizes(v, level)|
  {
    hide ReaderTotalCodewords, ReaderSizes, BlockOf;
  }

  lemma DataComplete(bits: seq<bool>, v: Version, level: Level, bytes: seq<Elem>)
    requires |bits| % 8 == 0 && bytes == Elems(Bytes(bits))
    ensures ByteBits(Numbers(bytes)) == bits
  {
    hide Bytes, ByteBits, NumberOf, ElemOf;
    NumbersBack(Bytes(bits));
    BytesBack(bits);
  }

  /**
   Corrects the blocks and joins their data. `None` stands for the exceptions. When every block
   was printed and is still readable, the bytes are those of the bits printed.
   */
  method DecodeCodewords(field: GF256, codewords: seq<Elem>, version: Version, ecLevel: Level,
    ghost bits: seq<bool>, ghost datas: seq<seq<Elem>>, ghost ecs: seq<seq<Elem>>)
    returns (resultBytes: Option<seq<nat>>)
    requires field.Valid()
    ensures resultBytes.Some? ==>
      |codewords| == ReaderTotalCodewords(version)
      && forall k :: 0 <= k < |resultBytes.value| ==> resultBytes.value[k] < 256
    ensures Interleaving(bits, version, ecLevel, datas, ecs) && Readable(codewords, version, ecLevel, datas, ecs) ==>
      resultBytes.Some? && ByteBits(resultBytes.value) == bits
  {
    hide Interleaving, Readable, Near, BlockOf, Offset, ReaderTotalCodewords, ReaderSizes, TotalCodewords, BlockCount,
        CheckCount, GF256.Valid,
      Bytes, ElemOf, NumberOf, ByteBits;
    ghost var readable := Interleaving(bits, version, ecLevel, datas, ecs) &&
      Readable(codewords, version, ecLevel, datas, ecs);
    ghost var data, total, n := Elems(Bytes(bits)), TotalCodewords(version), BlockCount(version, ecLevel);
    var ok, dataBlocks := GetDataBlocks(codewords, version, ecLevel);
    if readable { ReadableLength(codewords, version, ecLevel, datas, ecs); }
    if !ok { return None; }
    var bytes: seq<Elem> := [];
    if readable { DataBounds(bits, version, ecLevel, datas, ecs); }
    for j := 0 to |dataBlocks|
      invariant readable ==>
        n > 0 && j <= n && Offset(total, |data|, n, j) <= |data| && bytes == data[..Offset(total, |data|, n, j)]
    {
      var dataBlock := dataBlocks[j];
      BlockSize(codewords, version, ecLevel, j);
      if readable {
        ReadableIsNear(bits, codewords, version, ecLevel, datas, ecs, j);
        DataSoFar(bits, version, ecLevel, datas, ecs, j);
      }
      var outcome, corrected := CorrectErrors(field, dataBlock.codewords, dataBlock.numDataCodewords,
        if readable then datas[j] + ecs[j] else []);
      if outcome != Done { return None; }
      assert readable ==> corrected[..dataBlock.numDataCodewords] == datas[j];
      ghost var before := bytes;
      for i := 0 to dataBlock.numDataCodewords
        invariant bytes == before + corrected[..i]
      {
        bytes := bytes + [corrected[i]];
      }
    }
    if readable { DataComplete(bits, version, ecLevel, bytes); }
    resultBytes := Some(Numbers(bytes));
  }

  // ---------------------------------------------------------------------------------------
  // Symbols

  function Dimension(v: Version): nat { 17 + 4 * v }

  /** The codewords read off a matrix that shows `values`. */
  ghost function WordsRead(values: map<QrPlacement.Pos, bool>, pattern: nat, functionPattern: set<QrPlacement.Pos>,
      v: Version): (ns: seq<nat>)
    requires pattern < 8
    ensures forall k :: 0 <= k < |ns| ==> ns[k] < 256
  {
    var bits := QrPlacement.Read(QrPlacement.Order(Dimension(v)), functionPattern, QrGrid.Unmasked(values, pattern));
    PackedBelow(bits, [], 0, 0);
    Packed(bits, [], 0, 0)
  }

  /** The data modules of a version hold its codewords but for less than a byte. */
  ghost predicate RoomFor(symbol: map<QrPlacement.Pos, bool>, v: Version) {
    var free := |QrPlacement.Free(QrPlacement.Order(Dimension(v)), symbol.Keys)|;
    8 * TotalCodewords(v) <= free < 8 * TotalCodewords(v) + 8
  }

  /** The grid after printing the codewords around the function modules in `symbol`. */
  ghost function PrintedGrid(symbol: map<QrPlacement.Pos, bool>, v: Version, pattern: nat, datas: seq<seq<Elem>>,
      ecs: seq<seq<Elem>>): map<QrPlacement.Pos, bool> {
    QrPlacement.Fill(QrPlacement.Order(Dimension(v)), ElemBits(Interleaved(datas, ecs)), pattern,
      QrPlacement.Filling(symbol, 0)).grid
  }

  /** All bits go in exactly when there are as many free modules. */
  lemma UsedAll(symbol: map<QrPlacement.Pos, bool>, v: Version, pattern: nat, bits: seq<bool>)
    ensures
      QrPlacement.Fill(QrPlacement.Order(Dimension(v)), bits, pattern, QrPlacement.Filling(symbol, 0)).used == |bits|
      <==> |bits| <= |QrPlacement.Free(QrPlacement.Order(Dimension(v)), symbol.Keys)|
  {
    hide QrPlacement.Fill, QrPlacement.Order, QrPlacement.Free;
    QrPlacement.OrderCovers(Dimension(v));
    QrPlacement.FillMeaning(QrPlacement.Order(Dimension(v)), bits, pattern, QrPlacement.Filling(symbol, 0));
  }

  /**
   Prints a stream of bits into a grid that already shows the function modules. `ok` is false where
   the source panics: exactly for a wrong number of bits, and for too few free modules.
   */
  method PrintSymbol(field: GF256, cache: RsEncoder.GeneratorCache, bits: seq<bool>, version: Version, ecLevel: Level,
      pattern: nat, grid: QrGrid.BitGrid)
    returns (ok: bool, ghost datas: seq<seq<Elem>>, ghost ecs: seq<seq<Elem>>)
    requires field.Valid() && cache.Valid() && grid.Valid()
    requires grid.width == grid.height == Dimension(version)
    modifies cache, grid.bits
    ensures ok <==>
      && |bits| == 8 * DataCodewords(version, ecLevel)
      && 8 * TotalCodewords(version) <=
        |QrPlacement.Free(QrPlacement.Order(Dimension(version)), old(grid.Contents()).Keys)|
    ensures ok ==> Interleaving(bits, version, ecLevel, datas, ecs)
    ensures ok ==> grid.Contents() == PrintedGrid(old(grid.Contents()), version, pattern, datas, ecs)
  {
    hide GF256.Valid, Interleaving, DataCodewords, TotalCodewords, ElemBits, Interleaved, QrPlacement.Fill,
      QrPlacement.Order, QrPlacement.Free;
    var interleaved;
    ghost var symbol := grid.Contents();
    ok, interleaved, datas, ecs := InterleaveWithECBytes(field, cache, bits, version, ecLevel);
    if !ok { return; }
    InterleavingSize(bits, version, ecLevel, datas, ecs);
    UsedAll(symbol, version, pattern, interleaved);
    ok := QrGrid.EmbedDataBits(interleaved, pattern, grid);
  }

  lemma NoDistance(c: seq<Elem>)
    ensures Distance(c, c) == 0
  {
    if c != [] { NoDistance(c[1..]); }
  }

  /** The undamaged codewords are readable. */
  lemma CleanIsReadable(bits: seq<bool>, v: Version, level: Level, datas: seq<seq<Elem>>, ecs: seq<seq<Elem>>)
    requires Interleaving(bits, v, level, datas, ecs)
    ensures Readable(Interleaved(datas, ecs), v, level, datas, ecs)
  {
    hide Interleaving, Interleaved, BlockOf, Distance, ReaderTotalCodewords, TotalCodewords, ReaderSizes, CheckCount;
    InterleavingSize(bits, v, level, datas, ecs);
    TotalsAgree(v);
    InterleavingShaped(bits, v, level, datas, ecs);
    SizesAgree(v, level);
    forall j | 0 <= j < |datas|
      ensures BlockReadable(BlockOf(Interleaved(datas, ecs), v, level, j).codewords, datas[j] + ecs[j],
        CheckCount(v, level))
    {
      BlocksBack(bits, v, level, datas, ecs, j);
      NoDistance(datas[j] + ecs[j]);
    }
  }

  /** A matrix that shows the printed grid reads as the codewords printed. */
  lemma GridShowsCodewords(symbol: map<QrPlacement.Pos, bool>, pattern: nat, shown: map<QrPlacement.Pos, bool>,
    bits: seq<bool>, v: Version, level: Level, datas: seq<seq<Elem>>, ecs: seq<seq<Elem>>)
    requires pattern < 8 && RoomFor(symbol, v) && Interleaving(bits, v, level, datas, ecs)
    requires
      var placed := PrintedGrid(symbol, v, pattern, datas, ecs);
      forall p :: p in placed ==> p in shown && shown[p] == placed[p]
    ensures WordsRead(shown, pattern, symbol.Keys, v) == Numbers(Interleaved(datas, ecs))
    ensures Readable(Elems(WordsRead(shown, pattern, symbol.Keys, v)), v, level, datas, ecs)
  {
    hide Interleaving, Interleaved, TotalCodewords, ByteBits, NumberOf, ElemOf, QrPlacement.Fill, QrPlacement.Order,
      QrPlacement.Free, QrPlacement.Read, QrGrid.Unmasked, Packed, Readable;
    InterleavingSize(bits, v, level, datas, ecs);
    QrGrid.GridRoundTrip(Dimension(v), symbol, pattern, Numbers(Interleaved(datas, ecs)), shown);
    ElemsBack(Interleaved(datas, ecs));
    CleanIsReadable(bits, v, level, datas, ecs);
  }

  /**
   Reads a matrix whose version, level and mask are known. `None` stands for the exceptions before
   the segments are looked at. A printed content comes back if every block is still readable.
   */
  method ReadSymbol(field: GF256, matrix: QrGrid.BitMatrix, pattern: nat, functionPattern: set<QrPlacement.Pos>,
      version: Version, ecLevel: Level,
      ghost content: seq<Byte>, ghost mode: Mode, ghost bits: seq<bool>, ghost datas: seq<seq<Elem>>,
      ghost ecs: seq<seq<Elem>>)
    returns (r: Option<QrReader.Result<seq<seq<nat>>>>)
    requires field.Valid() && matrix.Valid() && matrix.dimension == Dimension(version) && pattern < 8
    modifies matrix.modules
    ensures
      && Printed(bits, content, mode, version, ecLevel)
      && Interleaving(bits, version, ecLevel, datas, ecs)
      && Readable(Elems(WordsRead(old(matrix.Values()), pattern, functionPattern, version)),
        version, ecLevel, datas, ecs)
      ==>
        r == Some(if content == [] then QrReader.Err(QrReader.InvalidLength) else QrReader.Ok([content]))
  {
    hide GF256.Valid, Interleaving, Readable, Printed, TotalCodewords, ReaderTotalCodewords, ByteBits, ElemOf,
      QrPlacement.Order, QrPlacement.Read, QrGrid.Unmasked, Packed, QrSegments.Segments;
    ghost var words := WordsRead(matrix.Values(), pattern, functionPattern, version);
    ghost var readable := Interleaving(bits, version, ecLevel, datas, ecs) &&
      Readable(Elems(words), version, ecLevel, datas, ecs);
    if readable { ReadableLength(Elems(words), version, ecLevel, datas, ecs); }
    var ok, codewords := matrix.ReadCodewords(pattern, functionPattern, ReaderTotalCodewords(version));
    assert codewords == words;
    if !ok { return None; }
    var resultBytes := DecodeCodewords(field, Elems(codewords), version, ecLevel, bits, datas, ecs);
    if resultBytes.None? { return None; }
    var reader := new QrReader.DataBlockReader(resultBytes.value, version, ecLevel);
    if readable && Printed(bits, content, mode, version, ecLevel) {
      QrSegments.PrintedBack(resultBytes.value, content, mode, version, ecLevel);
    }
    var segments := QrSegments.DataByte(reader);
    r := Some(segments);
  }
}
