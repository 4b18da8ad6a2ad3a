/** The parser's way back from the stream of codewords to blocks of data and check bytes. */
module QrDeinterleave {
  import opened QrVersions
  import opened QrReaderVersions
  import opened QrBlocks
  import opened QrTurns
  import opened QrInterleave
  import opened GaloisField

  datatype DataBlock = DataBlock(numDataCodewords: nat, codewords: seq<Elem>)

  /** Block `j` of a version's stream, by the places of its bytes. */
  ghost function BlockOf(raw: seq<Elem>, v: Version, level: Level, j: nat): DataBlock
    requires j < |ReaderSizes(v, level)|
  {
    var s := ShapeOf(v, level);
    DataBlock(ReaderSizes(v, level)[j], DataPart(raw, s, j) + CheckPart(raw, s, CheckCount(v, level), j))
  }

  /** The parser's places are the printer's: each block comes back, data followed by check bytes. */
  lemma BlocksBack(bits: seq<bool>, v: Version, level: Level, datas: seq<seq<Elem>>, ecs: seq<seq<Elem>>, j: nat)
    requires Interleaving(bits, v, level, datas, ecs) && j < |datas|
    ensures |datas| == |ecs| == |ReaderSizes(v, level)|
    ensures BlockOf(Interleaved(datas, ecs), v, level, j) == DataBlock(|datas[j]|, datas[j] + ecs[j])
  {
    hide Interleaving, Interleaved, TotalCodewords, DataCodewords, CheckCount, BlockCount, ReaderSizes, DataPart,
      CheckPart;
    InterleavingShaped(bits, v, level, datas, ecs);
    PartsBack(datas, ecs, ShapeOf(v, level), CheckCount(v, level), j);
  }

  // ---------------------------------------------------------------------------------------
  // The parser

  /** `result` agrees with `whole` on the first `count[b]` bytes of each block b. */
  ghost predicate FilledTo(result: seq<DataBlock>, whole: seq<DataBlock>, count: seq<nat>) {
    && |result| == |whole| == |count|
    && forall b :: 0 <= b < |whole| ==> AgreesTo(result[b], whole[b], count[b])
  }

  ghost predicate AgreesTo(r: DataBlock, w: DataBlock, n: nat) {
    && r.numDataCodewords == w.numDataCodewords
    && |r.codewords| == |w.codewords| && n <= |w.codewords| && r.codewords[..n] == w.codewords[..n]
  }

  function Put(d: DataBlock, i: nat, x: Elem): DataBlock
    requires i < |d.codewords|
  {
    d.(codewords := d.codewords[i := x])
  }

  /** One more byte of one block. */
  lemma FillOne(result: seq<DataBlock>, whole: seq<DataBlock>, count: seq<nat>, b: nat, x: Elem)
    requires FilledTo(result, whole, count) && b < |whole|
    requires count[b] < |whole[b].codewords| && x == whole[b].codewords[count[b]]
    ensures FilledTo(result[b := Put(result[b], count[b], x)], whole, count[b := count[b] + 1])
  {
    var r, w, n := result[b].codewords[count[b] := x], whole[b].codewords, count[b];
    assert r[..n + 1] == result[b].codewords[..n] + [x];
    assert w[..n + 1] == w[..n] + [x];
  }

  /** The next bytes of the stream are those of the blocks, in turns. */
  ghost predicate TurnsFrom(raw: seq<Elem>, offset: nat, whole: seq<DataBlock>, count: seq<nat>, turns: nat) {
    && |count| == |whole|
    && (forall b :: 0 <= b < |whole| ==> count[b] + turns <= |whole[b].codewords|)
    && forall b: nat, i: nat :: b < |whole| && i < turns ==> InPlace(raw, offset, whole[b], |whole|, count[b], i, b)
  }

  /** Byte `i` of block `b`, counted from `base`, stands at place `b` of turn `i`. */
  ghost predicate InPlace(raw: seq<Elem>, offset: nat, w: DataBlock, n: nat, base: nat, i: nat, b: nat) {
    base + i < |w.codewords| && w.codewords[base + i] == At(raw, offset + i * n + b)
  }

  lemma TurnInside(offset: nat, i: nat, j: nat, n: nat, turns: nat, length: nat)
    requires i < turns && j < n && offset + turns * n <= length
    ensures offset + i * n + j < length && offset + (i + 1) * n == offset + i * n + n
  {
    assert (i + 1) * n == i * n + n;
    assert (i + 1) * n <= turns * n;
  }

  /**
   Full turns over all blocks, from byte `base` of each on; the blocks from `longer` on are `ahead`
   bytes further. It serves for the data and for the check bytes alike.
   */
  method FillTurns(result0: seq<DataBlock>, raw: seq<Elem>, offset0: nat, base: nat, turns: nat, longer: nat,
      ahead: nat, ghost whole: seq<DataBlock>, ghost count0: seq<nat>)
    returns (result: seq<DataBlock>, offset: nat, ghost count: seq<nat>)
    requires FilledTo(result0, whole, count0) && longer <= |whole|
    requires forall b :: 0 <= b < |whole| ==> count0[b] == base + if b < longer then 0 else ahead
    requires TurnsFrom(raw, offset0, whole, count0, turns) && offset0 + turns * |whole| <= |raw|
    ensures FilledTo(result, whole, count)
    ensures forall b :: 0 <= b < |whole| ==> count[b] == count0[b] + turns
    ensures offset == offset0 + turns * |whole|
  {
    hide At, TurnsFrom;
    result, offset, count := result0, offset0, count0;
    var n := |result|;
    assert 0 * n == 0;
    for i := 0 to turns
      invariant offset == offset0 + i * n
      invariant FilledTo(result, whole, count)
      invariant forall b :: 0 <= b < n ==> count[b] == count0[b] + i
    {
      for j := 0 to n
        invariant offset == offset0 + i * n + j
        invariant FilledTo(result, whole, count)
        invariant forall b :: 0 <= b < n ==> count[b] == count0[b] + i + if b < j then 1 else 0
      {
        TurnInside(offset0, i, j, n, turns, |raw|);
        InTurn(raw, offset0, whole, count0, turns, i, j);
        FillOne(result, whole, count, j, raw[offset]);
        var iOffset := if j < longer then base + i else base + i + ahead;
        result := result[j := Put(result[j], iOffset, raw[offset])];
        count := count[j := count[j] + 1];
        offset := offset + 1;
      }
      assert (i + 1) * n == i * n + n;
    }
  }

  lemma InTurn(raw: seq<Elem>, offset: nat, whole: seq<DataBlock>, count: seq<nat>, turns: nat, i: nat, j: nat)
    requires TurnsFrom(raw, offset, whole, count, turns) && i < turns && j < |whole|
    requires offset + i * |whole| + j < |raw|
    ensures count[j] + i < |whole[j].codewords| && whole[j].codewords[count[j] + i] == raw[offset + i * |whole| + j]
  {
    assert InPlace(raw, offset, whole[j], |whole|, count[j], i, j);
  }

  /** The last data byte of the longer blocks. */
  method FillLonger(result0: seq<DataBlock>, raw: seq<Elem>, offset0: nat, size: nat, longer: nat,
    ghost whole: seq<DataBlock>, ghost count0: seq<nat>)
    returns (result: seq<DataBlock>, offset: nat, ghost count: seq<nat>)
    requires FilledTo(result0, whole, count0) && longer <= |whole|
    requires forall b :: 0 <= b < |whole| ==> count0[b] == size
    requires offset0 + (|whole| - longer) <= |raw|
    requires forall b :: longer <= b < |whole| ==>
      size < |whole[b].codewords| && whole[b].codewords[size] == At(raw, offset0 + (b - longer))
    ensures FilledTo(result, whole, count)
    ensures forall b :: 0 <= b < |whole| ==> count[b] == size + if b < longer then 0 else 1
    ensures offset == offset0 + (|whole| - longer)
  {
    result, offset, count := result0, offset0, count0;
    for j := longer to |result|
      invariant offset == offset0 + (j - longer) && FilledTo(result, whole, count)
      invariant forall b :: 0 <= b < |whole| ==> count[b] == size + if longer <= b < j then 1 else 0
    {
      FillOne(result, whole, count, j, raw[offset]);
      result := result[j := Put(result[j], size, raw[offset])];
      count := count[j := count[j] + 1];
      offset := offset + 1;
    }
  }

  /** The first of the longer blocks at the end, found from the back. */
  method LongerBlocksStart(result: seq<DataBlock>, ghost start: nat) returns (k: nat)
    requires 0 < start <= |result|
    requires forall b :: 0 <= b < |result| ==>
      |result[b].codewords| == if b < start then |result[0].codewords| else |result[0].codewords| + 1
    ensures k == start
  {
    var at: int := |result| - 1;
    while at >= 0 && |result[at].codewords| != |result[0].codewords|
      invariant start - 1 <= at < |result|
    {
      at := at - 1;
    }
    k := at + 1;
  }

  /** Blocks of the sizes of the table, still to be filled. */
  method EmptyBlocks(ecBlocks: Ecbs) returns (result: seq<DataBlock>)
    ensures |result| == |Expanded(ecBlocks.blocks)|
    ensures forall b :: 0 <= b < |result| ==> result[b].numDataCodewords == Expanded(ecBlocks.blocks)[b]
    ensures forall b :: 0 <= b < |result| ==>
      |result[b].codewords| == ecBlocks.codewordsPerBlock + result[b].numDataCodewords
  {
    hide Repeated;
    result := [];
    ghost var sizes: seq<nat> := [];
    for j := 0 to |ecBlocks.blocks|
      invariant sizes + Expanded(ecBlocks.blocks[j..]) == Expanded(ecBlocks.blocks)
      invariant |result| == |sizes| && forall b :: 0 <= b < |result| ==> result[b].numDataCodewords == sizes[b]
      invariant forall b :: 0 <= b < |result| ==>
        |result[b].codewords| == ecBlocks.codewordsPerBlock + result[b].numDataCodewords
    {
      var ecBlock := ecBlocks.blocks[j];
      assert ecBlocks.blocks[j..][1..] == ecBlocks.blocks[j + 1..];
      ghost var before, group := sizes, Repeated(ecBlock.dataCodewords, ecBlock.count);
      assert before + (group + Expanded(ecBlocks.blocks[j + 1..])) ==
        before + group + Expanded(ecBlocks.blocks[j + 1..]);
      for i := 0 to ecBlock.count
        invariant |result| == |before| + i && forall b :: 0 <= b < |result| ==>
          result[b].numDataCodewords == (before + group)[b]
        invariant forall b :: 0 <= b < |result| ==>
          |result[b].codewords| == ecBlocks.codewordsPerBlock + result[b].numDataCodewords
      {
        var numDataCodewords := ecBlock.dataCodewords;
        var numBlockCodewords := ecBlocks.codewordsPerBlock + numDataCodewords;
        result := result + [DataBlock(numDataCodewords, seq(numBlockCodewords, k => ZERO))];
      }
      sizes := before + group;
    }
    assert sizes + [] == sizes;
  }

  /** What the parser fills in, seen from the stream. */
  ghost function Whole(raw: seq<Elem>, v: Version, level: Level): (w: seq<DataBlock>)
    ensures |w| == |ReaderSizes(v, level)| && forall j :: 0 <= j < |w| ==> w[j] == BlockOf(raw, v, level, j)
  {
    seq(|ReaderSizes(v, level)|, j requires 0 <= j < |ReaderSizes(v, level)| => BlockOf(raw, v, level, j))
  }

  lemma ShapeFacts(v: Version, level: Level, s: Shape)
    requires s == ShapeOf(v, level)
    ensures s.start <= s.n == |ReaderSizes(v, level)|
    ensures forall j :: 0 <= j < s.n ==> ReaderSizes(v, level)[j] == if j < s.start then s.size else s.size + 1
  {
    hide TotalCodewords, DataCodewords, CheckCount, BlockCount, ReaderSizes, ReaderEcBlocks;
  }

  lemma DataTurn(raw: seq<Elem>, v: Version, level: Level, s: Shape, i: nat, b: nat)
    requires s == ShapeOf(v, level) && b < |ReaderSizes(v, level)| && i < s.size
    ensures InPlace(raw, 0, BlockOf(raw, v, level, b), s.n, 0, i, b)
  {
    hide At, ReaderSizes, CheckPart, CheckCount, IsShape, DataLength, LastPlace;
    ShapeFacts(v, level, s);
    assert BlockOf(raw, v, level, b).codewords[i] == DataPart(raw, s, b)[i];
  }

  lemma CheckTurn(raw: seq<Elem>, v: Version, level: Level, s: Shape, i: nat, b: nat)
    requires s == ShapeOf(v, level) && s.start <= s.n && b < |ReaderSizes(v, level)| && i < CheckCount(v, level)
    ensures InPlace(raw, DataLength(s), BlockOf(raw, v, level, b), s.n, ReaderSizes(v, level)[b], i, b)
  {
    hide At, ReaderSizes, DataPart, CheckCount, IsShape, DataLength;
    ShapeFacts(v, level, s);
    var c := CheckPart(raw, s, CheckCount(v, level), b);
    assert BlockOf(raw, v, level, b).codewords[ReaderSizes(v, level)[b] + i] == c[i];
  }

  lemma BlockLength(raw: seq<Elem>, v: Version, level: Level, s: Shape, b: nat)
    requires s == ShapeOf(v, level) && b < |ReaderSizes(v, level)|
    ensures |BlockOf(raw, v, level, b).codewords| == ReaderSizes(v, level)[b] + CheckCount(v, level)
    ensures s.start <= b ==>
      s.size < |BlockOf(raw, v, level, b).codewords| &&
        BlockOf(raw, v, level, b).codewords[s.size] == At(raw, LastPlace(s, b))
  {
    hide At, ReaderSizes, CheckPart, CheckCount, IsShape, DataPlace;
    ShapeFacts(v, level, s);
    if s.start <= b {
      assert BlockOf(raw, v, level, b).codewords[s.size] == DataPart(raw, s, b)[s.size];
    }
  }

  /** The three stretches of the stream. */
  lemma Stretches(raw: seq<Elem>, v: Version, level: Level, s: Shape, none: seq<nat>)
    requires s == ShapeOf(v, level)
    requires |none| == |ReaderSizes(v, level)| && forall b :: 0 <= b < |none| ==> none[b] == 0
    ensures s.start <= s.n
    ensures
      var w := Whole(raw, v, level);
      && TurnsFrom(raw, 0, w, none, s.size)
      && TurnsFrom(raw, DataLength(s), w, ReaderSizes(v, level), CheckCount(v, level))
  {
    hide InPlace, BlockOf, ReaderSizes, CheckCount, IsShape, DataLength, At;
    var w, sizes := Whole(raw, v, level), ReaderSizes(v, level);
    ShapeFacts(v, level, s);
    forall b | 0 <= b < |w|
      ensures |w[b].codewords| == sizes[b] + CheckCount(v, level)
    {
      BlockLength(raw, v, level, s, b);
    }
    forall b: nat, i: nat | b < |w| && i < s.size ensures InPlace(raw, 0, w[b], |w|, none[b], i, b) {
      DataTurn(raw, v, level, s, i, b);
    }
    forall b: nat, i: nat {:trigger InPlace(raw, DataLength(s), w[b], |w|, sizes[b], i, b)}
      | b < |w| && i < CheckCount(v, level)
      ensures InPlace(raw, DataLength(s), w[b], |w|, sizes[b], i, b)
    {
      CheckTurn(raw, v, level, s, i, b);
    }
  }

  lemma FilledMeansWhole(result: seq<DataBlock>, whole: seq<DataBlock>, count: seq<nat>)
    requires FilledTo(result, whole, count)
    requires forall b :: 0 <= b < |whole| ==> count[b] == |whole[b].codewords|
    ensures result == whole
  {
    forall b | 0 <= b < |whole| ensures result[b] == whole[b] {
      assert AgreesTo(result[b], whole[b], count[b]);
      assert result[b].codewords == result[b].codewords[..count[b]];
      assert whole[b].codewords == whole[b].codewords[..count[b]];
    }
  }

  /**
   The parser's blocks. `ok` is false where it throws: exactly when the stream does not have the
   version's length.
   */
  method GetDataBlocks(rawCodewords: seq<Elem>, version: Version, ecLevel: Level)
      returns (ok: bool, result: seq<DataBlock>)
    ensures ok <==> |rawCodewords| == ReaderTotalCodewords(version)
    ensures ok ==> |result| == |ReaderSizes(version, ecLevel)|
    ensures ok ==> forall j :: 0 <= j < |result| ==> result[j] == BlockOf(rawCodewords, version, ecLevel, j)
  {
    hide At, TotalCodewords, ReaderTotalCodewords, DataCodewords, BlockCount, CheckCount, ReaderEcBlocks, Expanded,
        FilledTo, TurnsFrom, BlockOf, DataLength;
    ok, result := true, [];
    if |rawCodewords| != ReaderTotalCodewords(version) { return false, []; }
    var ecBlocks := ReaderEcBlocks(version)[Ordinal(ecLevel)];
    result := EmptyBlocks(ecBlocks);
    var numResultBlocks := |result|;
    ghost var s, whole := ShapeOf(version, ecLevel), Whole(rawCodewords, version, ecLevel);
    assert IsShape(version, ecLevel, s);
    ghost var count := seq(s.n, b => 0);
    Stretches(rawCodewords, version, ecLevel, s, count);
    forall b: nat | b < s.n
      ensures whole[b].numDataCodewords == ReaderSizes(version, ecLevel)[b]
      ensures |whole[b].codewords| == ReaderSizes(version, ecLevel)[b] + CheckCount(version, ecLevel)
      ensures s.start <= b ==>
        s.size < |whole[b].codewords| && whole[b].codewords[s.size] == At(rawCodewords, LastPlace(s, b))
    {
      BlockLength(rawCodewords, version, ecLevel, s, b);
      BlockCountOf(rawCodewords, version, ecLevel, b);
    }
    StartsEmpty(result, whole, count);
    var longerBlocksStartAt := LongerBlocksStart(result, s.start);
    var shorterBlocksNumDataCodewords := |result[0].codewords| - ecBlocks.codewordsPerBlock;
    TotalsAgree(version);
    Places(|rawCodewords|, s, ecBlocks.codewordsPerBlock);
    var offset := 0;
    result, offset, count := FillTurns(result, rawCodewords, 0, 0, shorterBlocksNumDataCodewords, numResultBlocks, 0,
      whole, count);
    result, offset, count := FillLonger(result, rawCodewords, offset, shorterBlocksNumDataCodewords,
      longerBlocksStartAt, whole, count);
    assert count == ReaderSizes(version, ecLevel);
    result, offset, count := FillTurns(result, rawCodewords, offset, shorterBlocksNumDataCodewords,
      ecBlocks.codewordsPerBlock, longerBlocksStartAt, 1, whole, count);
    FilledMeansWhole(result, whole, count);
  }

  lemma BlockCountOf(raw: seq<Elem>, v: Version, level: Level, b: nat)
    requires b < |ReaderSizes(v, level)|
    ensures BlockOf(raw, v, level, b).numDataCodewords == ReaderSizes(v, level)[b]
  {
  }

  lemma StartsEmpty(result: seq<DataBlock>, whole: seq<DataBlock>, count: seq<nat>)
    requires |result| == |whole| == |count| && forall b :: 0 <= b < |count| ==> count[b] == 0
    requires forall b :: 0 <= b < |whole| ==>
      result[b].numDataCodewords == whole[b].numDataCodewords && |result[b].codewords| == |whole[b].codewords|
    ensures FilledTo(result, whole, count)
  {
  }

  lemma Places(length: nat, s: Shape, ec: nat)
    requires s.start <= s.n && length == s.n * (s.size + ec) + (s.n - s.start)
    ensures DataLength(s) == s.size * s.n + (s.n - s.start) <= length && DataLength(s) + ec * s.n == length
    ensures 0 + s.size * s.n == s.size * s.n <= length
  {
    assert s.n * (s.size + ec) == s.size * s.n + ec * s.n;
  }
}
