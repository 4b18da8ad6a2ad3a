/**
 How a symbol's data is cut into blocks: the printer computes the sizes, the reader has them in a
 table.
 */
module QrBlocks {
  import Arithmetic
  import opened QrVersions
  import opened QrReaderVersions

  // ---------------------------------------------------------------------------------------
  // Block sizes

  datatype Sizes = Sizes(data: nat, ec: int)

  /** The size of block `id`: the last blocks are one longer. */
  function BlockSizes(total: nat, data: nat, blocks: nat, id: nat): Sizes
    requires blocks > 0
  {
    var longer := total % blocks;
    var size := data / blocks;
    Sizes(if id < blocks - longer then size else size + 1, total / blocks - data / blocks)
  }

  /** The sizes together, as the source checks them, are always the total. */
  lemma SizesAddUp(total: nat, data: nat, blocks: nat)
    requires blocks > 0
    ensures
      var s := total / blocks;
      total == s * (blocks - total % blocks) + (s + 1) * (total % blocks)
  {
    var s, r := total / blocks, total % blocks;
    assert s * (blocks - r) + (s + 1) * r == s * blocks + r by {
      assert s * (blocks - r) + s * r == s * (blocks - r + r);
    }
  }

  /** Where the data of block `id` starts. */
  function Offset(total: nat, data: nat, blocks: nat, id: nat): nat
    requires blocks > 0 && id <= blocks
  {
    if id == 0 then 0 else Offset(total, data, blocks, id - 1) + BlockSizes(total, data, blocks, id - 1).data
  }

  lemma {:induction false} OffsetIs(total: nat, data: nat, blocks: nat, id: nat)
    requires blocks > 0 && id <= blocks
    ensures
      var start := blocks - total % blocks;
      Offset(total, data, blocks, id) == id * (data / blocks) + if id <= start then 0 else id - start
  {
    if id == 0 {
      assert 0 * (data / blocks) == 0;
    } else {
      OffsetIs(total, data, blocks, id - 1);
      assert id * (data / blocks) == (id - 1) * (data / blocks) + data / blocks;
    }
  }

  lemma EqualRemainders(n: nat, m: nat, d: nat)
    requires d > 0 && m <= n && n % d == m % d
    ensures (n - m) % d == 0
  {
    var q, q' := n / d, m / d;
    assert n == d * q + n % d && m == d * q' + m % d;
    assert d * (q - q') == n - m;
    Arithmetic.QuotientMonotone(m, n, d);
    Arithmetic.QuotientIs(n - m, d, q - q', 0);
  }

  lemma EvenDifference(n: nat, m: nat, d: nat)
    requires d > 0 && m <= n && (n - m) % d == 0
    ensures n % d == m % d
  {
    var k, q' := (n - m) / d, m / d;
    assert n - m == d * k && m == d * q' + m % d;
    assert d * (k + q') == d * k + d * q';
    Arithmetic.QuotientIs(n, d, k + q', m % d);
  }

  /**
   The blocks take up the data exactly when total and data leave the same remainder, that is,
   when the check bytes divide evenly; otherwise the source panics after the loop.
   */
  lemma BlocksTakeAllData(total: nat, data: nat, blocks: nat)
    requires blocks > 0 && data <= total
    ensures Offset(total, data, blocks, blocks) == data <==> (total - data) % blocks == 0
  {
    hide Offset;
    OffsetIs(total, data, blocks, blocks);
    assert blocks * (data / blocks) + data % blocks == data;
    if total % blocks == data % blocks { EqualRemainders(total, data, blocks); }
    if (total - data) % blocks == 0 { EvenDifference(total, data, blocks); }
  }

  /** Each block ends within the data. */
  lemma {:induction false} BlockWithin(total: nat, data: nat, blocks: nat, j: nat)
    requires blocks > 0 && j < blocks && data <= total && (total - data) % blocks == 0
    ensures Offset(total, data, blocks, j) + BlockSizes(total, data, blocks, j).data <= data
  {
    BlocksTakeAllData(total, data, blocks);
    OffsetGrows(total, data, blocks, j + 1);
  }

  lemma {:induction false} OffsetGrows(total: nat, data: nat, blocks: nat, j: nat)
    requires blocks > 0 && j <= blocks
    ensures Offset(total, data, blocks, j) <= Offset(total, data, blocks, blocks)
    decreases blocks - j
  {
    if j < blocks { OffsetGrows(total, data, blocks, j + 1); }
  }

  // ---------------------------------------------------------------------------------------
  // Agreement with the reader's table

  function BlockCount(v: Version, level: Level): nat {
    NumBlocks(EcBlocks(v)[level].blocks)
  }

  /** `n` blocks, the first `start` with `size` data codewords and the rest with one more. */
  datatype Shape = Shape(n: nat, size: nat, start: nat)

  ghost predicate IsShape(v: Version, level: Level, s: Shape) {
    && 0 < s.start <= s.n && s.size > 0
    && BlockCount(v, level) == s.n && |ReaderSizes(v, level)| == s.n
    && (forall j :: 0 <= j < s.n ==> ReaderSizes(v, level)[j] == if j < s.start then s.size else s.size + 1)
    && TotalCodewords(v) == s.n * (s.size + CheckCount(v, level)) + (s.n - s.start)
    && DataCodewords(v, level) == s.n * s.size + (s.n - s.start)
    && 1 <= CheckCount(v, level) <= 30 && s.size + 1 + CheckCount(v, level) <= 255
    && ReaderEcBlocks(v)[Ordinal(level)].codewordsPerBlock == CheckCount(v, level)
  }

  lemma ExpandedFew(blocks: seq<Ecb>)
    requires |blocks| in {1, 2}
    ensures |Expanded(blocks)| == Count(blocks)
    ensures forall j :: 0 <= j < |Expanded(blocks)| ==>
      Expanded(blocks)[j] == if j < blocks[0].count then blocks[0].dataCodewords else blocks[1].dataCodewords
  {
    hide Repeated;
    assert Expanded([]) == [];
    if |blocks| == 1 {
      assert blocks[1..] == [];
    } else {
      assert blocks[1..][1..] == [];
      assert Expanded(blocks[1..]) == Repeated(blocks[1].dataCodewords, blocks[1].count);
    }
  }

  lemma Arrange(c: nat, c': nat, d: nat, ec: nat)
    ensures c * (d + ec) + c' * (d + 1 + ec) == (c + c') * (d + ec) + c'
    ensures (c + c') * (d + ec) == (c + c') * d + (c + c') * ec
  {
  }

  /** Every version and level has such a shape. */
  lemma ShapeExists(v: Version, level: Level)
    ensures exists s :: IsShape(v, level, s)
  {
    hide EcBlocks, ReaderEcBlocks, Codewords, NumBlocks, Expanded;
    LevelOf(v, level);
    var printer, reader, ec := EcBlocks(v)[level].blocks, ReaderEcBlocks(v)[Ordinal(level)].blocks,
      CheckCount(v, level);
    FewBlocks(printer, ec);
    FewBlocks(EcBlocks(v)[1].blocks, EcBlocks(v)[1].codewordsPerBlock);
    ExpandedFew(reader);
    var s := Shape(Count(reader), reader[0].dataCodewords, reader[0].count);
    Arrange(s.start, s.n - s.start, s.size, ec);
    assert IsShape(v, level, s);
  }

  ghost function ShapeOf(v: Version, level: Level): (s: Shape)
    ensures IsShape(v, level, s)
  {
    ShapeExists(v, level);
    var s :| IsShape(v, level, s);
    s
  }

  /**
   The sizes the printer computes are those in the reader's table, for every version and level;
   they use up the data, and none of the printer's checks fails.
   */
  lemma SizesAgree(v: Version, level: Level)
    ensures
      var total, data, n := TotalCodewords(v), DataCodewords(v, level), BlockCount(v, level);
      && 0 < n <= data < total && (total - data) % n == 0
      && |ReaderSizes(v, level)| == n
      && forall j :: 0 <= j < n ==>
        BlockSizes(total, data, n, j) == Sizes(ReaderSizes(v, level)[j], CheckCount(v, level))
  {
    hide EcBlocks, ReaderEcBlocks, TotalCodewords, DataCodewords, ReaderSizes, NumBlocks;
    var Shape(n, size, start) := ShapeOf(v, level);
    var total, data, ec := TotalCodewords(v), DataCodewords(v, level), CheckCount(v, level);
    Arithmetic.QuotientIs(total, n, size + ec, n - start);
    Arithmetic.QuotientIs(data, n, size, n - start);
    Arithmetic.MulLe(n, 1, size);
    assert total - data == n * ec by { assert n * (size + ec) == n * size + n * ec; }
    Arithmetic.MulLe(n, 1, ec);
    Arithmetic.QuotientIs(total - data, n, ec, 0);
  }
}
