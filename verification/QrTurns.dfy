/** Bytes of several blocks taken in turns, and where each of them ends up. */
module QrTurns {
  import opened GaloisField
  import opened QrBlocks

  /** The bytes number `i` of the blocks from number `j` on. */
  function Column(blocks: seq<seq<Elem>>, i: nat, j: nat): seq<Elem>
    requires j <= |blocks|
    decreases |blocks| - j
  {
    if j == |blocks| then []
    else (if i < |blocks[j]| then [blocks[j][i]] else []) + Column(blocks, i, j + 1)
  }

  function Columns(blocks: seq<seq<Elem>>, i: nat, m: nat): seq<Elem>
    decreases m - i
  {
    if i >= m then [] else Column(blocks, i, 0) + Columns(blocks, i + 1, m)
  }

  function Longest(blocks: seq<seq<Elem>>): nat {
    if blocks == [] then 0 else
      var m := Longest(blocks[..|blocks| - 1]);
      if |blocks[|blocks| - 1]| > m then |blocks[|blocks| - 1]| else m
  }

  function Interleaved(datas: seq<seq<Elem>>, ecs: seq<seq<Elem>>): seq<Elem> {
    Columns(datas, 0, Longest(datas)) + Columns(ecs, 0, Longest(ecs))
  }

  lemma ColumnStep(bs: seq<seq<Elem>>, i: nat, j: nat)
    requires j < |bs|
    ensures i < |bs[j]| ==> Column(bs, i, j) == [bs[j][i]] + Column(bs, i, j + 1)
    ensures i >= |bs[j]| ==> Column(bs, i, j) == Column(bs, i, j + 1)
  {
    assert [] + Column(bs, i, j + 1) == Column(bs, i, j + 1);
  }

  lemma ColumnDone(bs: seq<seq<Elem>>, i: nat)
    ensures Column(bs, i, |bs|) == []
  {
  }

  lemma ColumnsStep(bs: seq<seq<Elem>>, i: nat, m: nat)
    ensures i < m ==> Columns(bs, i, m) == Column(bs, i, 0) + Columns(bs, i + 1, m)
    ensures i >= m ==> Columns(bs, i, m) == []
  {
    hide Column;
  }

  lemma LongestNone()
    ensures Longest([]) == 0
  {
  }

  lemma LongestStep(blocks: seq<seq<Elem>>, last: seq<Elem>)
    ensures Longest(blocks + [last]) == if |last| > Longest(blocks) then |last| else Longest(blocks)
  {
    assert (blocks + [last])[..|blocks|] == blocks;
  }

  // ---------------------------------------------------------------------------------------
  // Blocks of nearly equal size

  /** Blocks of the given shape, with `ec` check bytes each. */
  ghost predicate Shaped(datas: seq<seq<Elem>>, ecs: seq<seq<Elem>>, s: Shape, ec: nat) {
    && |datas| == |ecs| == s.n && 0 < s.start <= s.n
    && (forall j :: 0 <= j < s.n ==> |datas[j]| == if j < s.start then s.size else s.size + 1)
    && (forall j :: 0 <= j < s.n ==> |ecs[j]| == ec)
  }

  lemma {:induction false} LongestShaped(bs: seq<seq<Elem>>, size: nat, start: nat)
    requires start > 0 && forall j :: 0 <= j < |bs| ==> |bs[j]| == if j < start then size else size + 1
    ensures Longest(bs) == if bs == [] then 0 else if |bs| <= start then size else size + 1
  {
    if bs != [] { LongestShaped(bs[..|bs| - 1], size, start); }
  }

  lemma {:induction false} ColumnsSplit(bs: seq<seq<Elem>>, i: nat, m: nat)
    requires i <= m
    ensures Columns(bs, i, m + 1) == Columns(bs, i, m) + Column(bs, m, 0)
    decreases m - i
  {
    hide Column, Columns;
    ColumnsStep(bs, i, m + 1);
    ColumnsStep(bs, i, m);
    if i < m {
      ColumnsSplit(bs, i + 1, m);
      assert Column(bs, i, 0) + (Columns(bs, i + 1, m) + Column(bs, m, 0)) ==
             Column(bs, i, 0) + Columns(bs, i + 1, m) + Column(bs, m, 0);
    } else {
      ColumnsStep(bs, m + 1, m + 1);
    }
  }

  lemma {:induction false} ShortBlocksSkipped(bs: seq<seq<Elem>>, i: nat, j: nat, start: nat)
    requires j <= start <= |bs| && forall b :: 0 <= b < start ==> |bs[b]| <= i
    ensures Column(bs, i, j) == Column(bs, i, start)
    decreases start - j
  {
    hide Column;
    if j < start {
      ColumnStep(bs, i, j);
      ShortBlocksSkipped(bs, i, j + 1, start);
    }
  }

  /** The stream: full turns of data, the last bytes of the longer blocks, full turns of check bytes. */
  lemma StreamParts(datas: seq<seq<Elem>>, ecs: seq<seq<Elem>>, s: Shape, ec: nat)
    requires Shaped(datas, ecs, s, ec)
    ensures Interleaved(datas, ecs) == Columns(datas, 0, s.size) + Column(datas, s.size, s.start) + Columns(ecs, 0, ec)
  {
    hide Column, Columns, Longest;
    LongestShaped(datas, s.size, s.start);
    LongestShaped(ecs, ec, |ecs|);
    ColumnsSplit(datas, 0, s.size);
    ShortBlocksSkipped(datas, s.size, 0, s.start);
    ColumnDone(datas, s.size);
    assert Columns(datas, 0, s.size) + [] == Columns(datas, 0, s.size);
  }

  // ---------------------------------------------------------------------------------------
  // Positions

  lemma {:induction false} FullColumn(bs: seq<seq<Elem>>, i: nat, j: nat)
    requires j <= |bs| && forall b :: j <= b < |bs| ==> i < |bs[b]|
    ensures |Column(bs, i, j)| == |bs| - j
    ensures forall k :: 0 <= k < |bs| - j ==> Column(bs, i, j)[k] == bs[j + k][i]
    decreases |bs| - j
  {
    hide Column;
    if j == |bs| {
      ColumnDone(bs, i);
    } else {
      ColumnStep(bs, i, j);
      FullColumn(bs, i, j + 1);
    }
  }

  lemma {:induction false} FullColumns(bs: seq<seq<Elem>>, i: nat, t: nat)
    requires i <= t && forall b :: 0 <= b < |bs| ==> t <= |bs[b]|
    ensures |Columns(bs, i, t)| == (t - i) * |bs|
    decreases t - i
  {
    hide Column, Columns;
    ColumnsStep(bs, i, t);
    if i < t {
      FullColumn(bs, i, 0);
      FullColumns(bs, i + 1, t);
      NextTurn(t - i, |bs|);
    }
  }

  lemma NextTurn(k: int, n: int)
    ensures k * n == n + (k - 1) * n
  {
  }

  /** Byte `k` of block `b` stands at place `b` of turn `k`. */
  lemma {:induction false} TurnAt(bs: seq<seq<Elem>>, i: nat, t: nat, k: nat, b: nat)
    requires i <= k < t && b < |bs| && forall b :: 0 <= b < |bs| ==> t <= |bs[b]|
    ensures 0 <= (k - i) * |bs| + b < |Columns(bs, i, t)|
    ensures Columns(bs, i, t)[(k - i) * |bs| + b] == bs[b][k]
    decreases t - i
  {
    hide Column, Columns;
    ColumnsStep(bs, i, t);
    FullColumn(bs, i, 0);
    if k > i {
      TurnAt(bs, i + 1, t, k, b);
      NextTurn(k - i, |bs|);
    } else {
      assert (k - i) * |bs| == 0;
    }
  }

  function At(raw: seq<Elem>, k: nat): Elem {
    if k < |raw| then raw[k] else ZERO
  }

  /** Where byte `i` of block `j` stands: a full turn, a last byte of a longer block, a check byte. */
  function DataPlace(s: Shape, i: nat, j: nat): nat { i * s.n + j }

  function LastPlace(s: Shape, j: nat): nat
    requires s.start <= j
  {
    s.size * s.n + (j - s.start)
  }

  function DataLength(s: Shape): nat
    requires s.start <= s.n
  {
    s.size * s.n + (s.n - s.start)
  }

  function CheckPlace(s: Shape, i: nat, j: nat): nat
    requires s.start <= s.n
  {
    DataLength(s) + (i * s.n + j)
  }

  /** The data bytes of block `j`, and its check bytes, by their places in the stream. */
  function DataPart(raw: seq<Elem>, s: Shape, j: nat): (d: seq<Elem>)
    ensures |d| == if j < s.start then s.size else s.size + 1
  {
    seq(s.size, (i: nat) => At(raw, DataPlace(s, i, j))) + if j >= s.start then [At(raw, LastPlace(s, j))] else []
  }

  function CheckPart(raw: seq<Elem>, s: Shape, ec: nat, j: nat): (c: seq<Elem>)
    requires s.start <= s.n
    ensures |c| == ec
  {
    seq(ec, (i: nat) => At(raw, CheckPlace(s, i, j)))
  }

  lemma StreamLength(datas: seq<seq<Elem>>, ecs: seq<seq<Elem>>, s: Shape, ec: nat)
    requires Shaped(datas, ecs, s, ec)
    ensures |Columns(datas, 0, s.size)| == s.size * s.n && |Column(datas, s.size, s.start)| == s.n - s.start
    ensures |Columns(ecs, 0, ec)| == ec * s.n
    ensures |Interleaved(datas, ecs)| == s.n * (s.size + ec) + (s.n - s.start)
  {
    hide Column, Columns, Longest, Interleaved;
    StreamParts(datas, ecs, s, ec);
    FullColumns(datas, 0, s.size);
    FullColumn(datas, s.size, s.start);
    FullColumns(ecs, 0, ec);
    assert s.size * s.n + ec * s.n == s.n * (s.size + ec);
  }

  lemma PartOf(raw: seq<Elem>, a: seq<Elem>, b: seq<Elem>, c: seq<Elem>, k: nat)
    requires raw == a + b + c
    ensures k < |a| ==> At(raw, k) == a[k]
    ensures k < |b| ==> At(raw, |a| + k) == b[k]
    ensures k < |c| ==> At(raw, |a| + |b| + k) == c[k]
  {
  }

  lemma DataAt(datas: seq<seq<Elem>>, ecs: seq<seq<Elem>>, s: Shape, ec: nat, i: nat, j: nat)
    requires Shaped(datas, ecs, s, ec) && j < s.n && i < s.size
    ensures At(Interleaved(datas, ecs), DataPlace(s, i, j)) == datas[j][i]
  {
    hide Column, Columns, Longest, Interleaved, At;
    StreamParts(datas, ecs, s, ec);
    TurnAt(datas, 0, s.size, i, j);
    PartOf(Interleaved(datas, ecs), Columns(datas, 0, s.size), Column(datas, s.size, s.start), Columns(ecs, 0, ec),
      i * s.n + j);
  }

  lemma LastAt(datas: seq<seq<Elem>>, ecs: seq<seq<Elem>>, s: Shape, ec: nat, j: nat)
    requires Shaped(datas, ecs, s, ec) && s.start <= j < s.n
    ensures At(Interleaved(datas, ecs), LastPlace(s, j)) == datas[j][s.size]
  {
    hide Column, Columns, Longest, Interleaved, At;
    StreamParts(datas, ecs, s, ec);
    StreamLength(datas, ecs, s, ec);
    FullColumn(datas, s.size, s.start);
    var b := Column(datas, s.size, s.start);
    PartOf(Interleaved(datas, ecs), Columns(datas, 0, s.size), b, Columns(ecs, 0, ec), j - s.start);
    assert b[j - s.start] == datas[s.start + (j - s.start)][s.size];
  }

  lemma CheckAt(datas: seq<seq<Elem>>, ecs: seq<seq<Elem>>, s: Shape, ec: nat, i: nat, j: nat)
    requires Shaped(datas, ecs, s, ec) && j < s.n && i < ec
    ensures At(Interleaved(datas, ecs), CheckPlace(s, i, j)) == ecs[j][i]
  {
    hide Column, Columns, Longest, Interleaved, At;
    StreamParts(datas, ecs, s, ec);
    StreamLength(datas, ecs, s, ec);
    TurnAt(ecs, 0, ec, i, j);
    PartOf(Interleaved(datas, ecs), Columns(datas, 0, s.size), Column(datas, s.size, s.start), Columns(ecs, 0, ec),
      i * s.n + j);
  }

  /** Taking the places of a block out of the stream gives the block back. */
  lemma PartsBack(datas: seq<seq<Elem>>, ecs: seq<seq<Elem>>, s: Shape, ec: nat, j: nat)
    requires Shaped(datas, ecs, s, ec) && j < s.n
    ensures DataPart(Interleaved(datas, ecs), s, j) == datas[j]
    ensures CheckPart(Interleaved(datas, ecs), s, ec, j) == ecs[j]
  {
    hide Interleaved, At, DataPlace, LastPlace, CheckPlace;
    var raw := Interleaved(datas, ecs);
    forall i | 0 <= i < s.size ensures At(raw, DataPlace(s, i, j)) == datas[j][i] { DataAt(datas, ecs, s, ec, i, j); }
    if j >= s.start { LastAt(datas, ecs, s, ec, j); }
    forall i | 0 <= i < ec ensures At(raw, CheckPlace(s, i, j)) == ecs[j][i] { CheckAt(datas, ecs, s, ec, i, j); }
  }
}
