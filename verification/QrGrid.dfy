/**
 The printer's grid of modules and the parser's matrix: placing the data bits, undoing the mask
 and reading the codewords back.
 */
module QrGrid {
  import Arithmetic
  import opened QrBits
  import opened QrPlacement

  function Positions(width: nat, height: nat): set<Pos> {
    set x, y | 0 <= x < width && 0 <= y < height :: Pos(x, y)
  }

  function IndexOf(x: int, y: int, width: nat): int { x + y * width }

  lemma IndexInside(x: nat, y: nat, width: nat, height: nat)
    requires x < width && y < height
    ensures 0 <= IndexOf(x, y, width) < width * height
  {
    assert y * width <= (height - 1) * width;
    assert (height - 1) * width + width == height * width;
  }

  lemma IndexInjective(x: nat, y: nat, x': nat, y': nat, width: nat)
    requires x < width && x' < width && IndexOf(x, y, width) == IndexOf(x', y', width)
    ensures x == x' && y == y'
  {
    Arithmetic.QuotientIs(IndexOf(x, y, width), width, y, x) by { assert width * y == y * width; }
    Arithmetic.QuotientIs(IndexOf(x, y, width), width, y', x') by { assert width * y' == y' * width; }
  }

  // ---------------------------------------------------------------------------------------
  // The printer

  class BitGrid {
    const width: nat
    const height: nat
    const bits: array<bool>

    constructor (width: nat, height: nat)
      ensures Valid() && this.width == width && this.height == height && fresh(bits)
      ensures Contents() == map[]
    {
      hide IndexOf;
      this.width, this.height := width, height;
      bits := new bool[2 * (width * height)](_ => false);
      new;
      forall p | p in Positions(width, height) ensures !IsSet(p) {
        IndexInside(p.x, p.y, width, height);
      }
    }

    ghost predicate Valid() {
      bits.Length == 2 * (width * height)
    }

    ghost predicate Inside(x: int, y: int) { 0 <= x < width && 0 <= y < height }

    /** The modules that are set, with their values. */
    ghost function Contents(): (m: map<Pos, bool>)
      requires Valid()
      reads bits
      ensures forall p :: p in m ==> Inside(p.x, p.y)
    {
      map p | p in Positions(width, height) && IsSet(p) :: ValueOf(p)
    }

    ghost predicate IsSet(p: Pos)
      requires Valid() && Inside(p.x, p.y)
      reads bits
    {
      IndexInside(p.x, p.y, width, height);
      bits[2 * IndexOf(p.x, p.y, width)]
    }

    ghost predicate ValueOf(p: Pos)
      requires Valid() && Inside(p.x, p.y)
      reads bits
    {
      IndexInside(p.x, p.y, width, height);
      bits[2 * IndexOf(p.x, p.y, width) + 1]
    }

    method Empty(x: int, y: int) returns (e: bool)
      requires Valid() && Inside(x, y)
      ensures e <==> Pos(x, y) !in Contents()
    {
      hide IndexOf;
      IndexInside(x, y, width, height);
      e := !bits[2 * IndexOf(x, y, width)];
      assert Pos(x, y) in Positions(width, height);
    }

    method Set(x: int, y: int, v: bool)
      requires Valid() && Inside(x, y)
      modifies bits
      ensures Contents() == old(Contents())[Pos(x, y) := v]
    {
      hide IndexOf;
      IndexInside(x, y, width, height);
      var k := IndexOf(x, y, width);
      bits[2 * k] := true;
      bits[2 * k + 1] := v;
      var at := Pos(x, y);
      assert at in Positions(width, height);
      forall p | p in Positions(width, height) && p != at
        ensures IsSet(p) == old(IsSet(p)) && ValueOf(p) == old(ValueOf(p))
      {
        IndexInside(p.x, p.y, width, height);
        if IndexOf(p.x, p.y, width) == k { IndexInjective(p.x, p.y, x, y, width); }
      }
      assert Contents() == old(Contents())[at := v];
    }

    /** One module of the walk. */
    method PlaceOne(x: int, y: int, data: seq<bool>, pattern: nat, bitIndex: nat) returns (next: nat)
      requires Valid() && Inside(x, y) && bitIndex <= |data|
      modifies bits
      ensures Filling(Contents(), next) == FillOne(Pos(x, y), data, pattern, Filling(old(Contents()), bitIndex))
      ensures next <= |data|
    {
      hide IndexOf, Mask, Contents;
      next := bitIndex;
      var empty := Empty(x, y);
      if !empty { return; }
      var bit := false;
      if next < |data| {
        bit := data[next];
        next := next + 1;
      }
      if Mask(pattern, x, y) { bit := !bit; }
      Set(x, y, bit);
    }
  }

  /** The rows of one pair of columns. */
  method EmbedPair(data: seq<bool>, pattern: nat, grid: BitGrid, x: int, y0: int, dir: int, bitIndex: nat)
    returns (y: int, next: nat)
    requires grid.Valid() && 1 <= x < grid.width && bitIndex <= |data|
    requires (dir == 1 || dir == -1) && y0 == FirstRow(dir, grid.height) && grid.height > 0
    modifies grid.bits
    ensures next <= |data| && y == if dir == 1 then grid.height else -1
    ensures Filling(grid.Contents(), next) ==
            Fill(Column(x, y0, dir, grid.height), data, pattern, Filling(old(grid.Contents()), bitIndex))
  {
    hide Fill, FillOne, BitGrid.Contents, BitGrid.Valid, Column;
    var h := grid.height;
    ghost var goal := Fill(Column(x, y0, dir, h), data, pattern, Filling(grid.Contents(), bitIndex));
    y, next := y0, bitIndex;
    while 0 <= y < h
      invariant -1 <= y <= h && next <= |data|
      invariant if dir == 1 then y >= 0 else y < h
      invariant Fill(Column(x, y, dir, h), data, pattern, Filling(grid.Contents(), next)) == goal
      decreases if dir == 1 then h - y else y + 1
    {
      ColumnStep(x, y, dir, h);
      FillTwo(Pos(x, y), Pos(x - 1, y), Column(x, y + dir, dir, h), data, pattern, Filling(grid.Contents(), next));
      next := grid.PlaceOne(x, y, data, pattern, next);
      next := grid.PlaceOne(x - 1, y, data, pattern, next);
      y := y + dir;
    }
    ColumnEnd(x, y, dir, h);
    FillNone(data, pattern, Filling(grid.Contents(), next));
  }

  lemma ColumnStep(x: int, y: int, dir: int, h: nat)
    requires (dir == 1 || dir == -1) && 0 <= y < h
    ensures Column(x, y, dir, h) == [Pos(x, y), Pos(x - 1, y)] + Column(x, y + dir, dir, h)
  {
  }

  lemma ColumnEnd(x: int, y: int, dir: int, h: nat)
    requires (dir == 1 || dir == -1) && !(0 <= y < h)
    ensures Column(x, y, dir, h) == []
  {
  }

  /**
   The walk over the symbol; `ok` is false where the source panics because bits are left over.
   */
  method EmbedDataBits(data: seq<bool>, pattern: nat, grid: BitGrid) returns (ok: bool)
    requires grid.Valid() && grid.width == grid.height && grid.width % 2 == 1 && grid.width >= 9
    modifies grid.bits
    ensures
      var r := Fill(Order(grid.width), data, pattern, Filling(old(grid.Contents()), 0));
      grid.Contents() == r.grid && (ok <==> r.used == |data|)
  {
    hide Fill, BitGrid.Contents, BitGrid.Valid, Column, Path;
    var h := grid.height;
    ghost var goal := Fill(Order(grid.width), data, pattern, Filling(grid.Contents(), 0));
    var bitIndex: nat := 0;
    var dir, x, y := -1, grid.width - 1, grid.height - 1;
    while x > 0
      invariant -1 <= x < grid.width && (x > 6 ==> x % 2 == 0) && (x <= 5 ==> x % 2 != 0)
      invariant (dir == 1 || dir == -1) && y == FirstRow(dir, h)
      invariant bitIndex <= |data|
      invariant Fill(Path(x, dir, h), data, pattern, Filling(grid.Contents(), bitIndex)) == goal
      decreases x
    {
      PathStep(x, dir, h);
      if x == 6 { x := x - 1; }
      FillAppend(Column(x, y, dir, h), Path(x - 2, -dir, h), data, pattern, Filling(grid.Contents(), bitIndex));
      y, bitIndex := EmbedPair(data, pattern, grid, x, y, dir, bitIndex);
      x, y, dir := x - 2, y - dir, -dir;
    }
    PathEnd(x, dir, h);
    FillNone(data, pattern, Filling(grid.Contents(), bitIndex));
    ok := bitIndex == |data|;
  }

  lemma PathStep(x: int, dir: int, h: nat)
    requires (dir == 1 || dir == -1) && x > 0
    ensures Path(x, dir, h) == Column(PairAt(x), FirstRow(dir, h), dir, h) + Path(PairAt(x) - 2, -dir, h)
  {
    hide Column;
  }

  lemma PathEnd(x: int, dir: int, h: nat)
    requires (dir == 1 || dir == -1) && x <= 0
    ensures Path(x, dir, h) == []
  {
  }

  lemma {:induction false} FillAppend(a: seq<Pos>, b: seq<Pos>, bits: seq<bool>, pattern: nat, f: Filling)
    ensures Fill(a + b, bits, pattern, f) == Fill(b, bits, pattern, Fill(a, bits, pattern, f))
  {
    hide FillOne;
    if a == [] {
      assert a + b == b;
    } else {
      assert (a + b)[1..] == a[1..] + b;
      FillAppend(a[1..], b, bits, pattern, FillOne(a[0], bits, pattern, f));
    }
  }

  lemma FillTwo(p: Pos, q: Pos, rest: seq<Pos>, bits: seq<bool>, pattern: nat, f: Filling)
    ensures Fill([p, q] + rest, bits, pattern, f) ==
            Fill(rest, bits, pattern, FillOne(q, bits, pattern, FillOne(p, bits, pattern, f)))
  {
    hide FillOne;
    assert ([p, q] + rest)[1..] == [q] + rest;
    assert ([q] + rest)[1..] == rest;
  }

  lemma FillNone(bits: seq<bool>, pattern: nat, f: Filling)
    ensures Fill([], bits, pattern, f) == f
  {
  }

  // ---------------------------------------------------------------------------------------
  // The parser

  /** The parser's square matrix of modules. */
  class BitMatrix {
    const dimension: nat
    const modules: array2<bool>

    constructor (modules: array2<bool>)
      requires modules.Length0 == modules.Length1
      ensures this.modules == modules && dimension == modules.Length0 && Valid()
    {
      this.modules, dimension := modules, modules.Length0;
    }

    ghost predicate Valid() { modules.Length0 == dimension && modules.Length1 == dimension }

    predicate Get(x: int, y: int)
      requires Valid() && 0 <= x < dimension && 0 <= y < dimension
      reads modules
    {
      modules[x, y]
    }

    method Flip(x: int, y: int)
      requires Valid() && 0 <= x < dimension && 0 <= y < dimension
      modifies modules
      ensures modules[x, y] == !old(modules[x, y])
      ensures forall i, j :: 0 <= i < dimension && 0 <= j < dimension && !(i == x && j == y) ==>
        modules[i, j] == old(modules[i, j])
    {
      modules[x, y] := !modules[x, y];
    }

    /** Flips exactly the masked modules. */
    method Unmask(pattern: nat)
      requires Valid() && pattern < 8
      modifies modules
      ensures forall x, y :: 0 <= x < dimension && 0 <= y < dimension ==>
        modules[x, y] == (old(modules[x, y]) != IsMasked(pattern, y, x))
    {
      hide IsMasked;
      for i := 0 to dimension
        invariant forall x, y :: 0 <= x < dimension && 0 <= y < dimension ==>
          modules[x, y] == if y < i then old(modules[x, y]) != IsMasked(pattern, y, x) else old(modules[x, y])
      {
        for j := 0 to dimension
          invariant forall x, y :: 0 <= x < dimension && 0 <= y < dimension ==>
            modules[x, y] ==
              if y < i || (y == i && x < j) then old(modules[x, y]) != IsMasked(pattern, y, x) else old(modules[x, y])
        {
          if IsMasked(pattern, i, j) { Flip(j, i); }
        }
      }
    }

    /** The module at `p`, or false outside. */
    ghost function Value(p: Pos): bool
      requires Valid()
      reads modules
    {
      0 <= p.x < dimension && 0 <= p.y < dimension && modules[p.x, p.y]
    }

    /** A snapshot of the modules. */
    ghost function Values(): map<Pos, bool>
      requires Valid()
      reads modules
    {
      map p | p in Positions(dimension, dimension) :: Value(p)
    }

    /** The rows of one pair of columns; `after` is what remains of the order then. */
    method ReadPair(j: int, readingUp: bool, functionPattern: set<Pos>, result0: seq<nat>, byte0: nat, bits0: nat,
      ghost after: seq<Pos>, ghost value: Pos -> bool)
      returns (result: seq<nat>, currentByte: nat, bitsRead: nat)
      requires Valid() && 1 <= j < dimension && bits0 < 8
      requires forall p :: p in Positions(dimension, dimension) ==> Value(p) == value(p)
      ensures bitsRead < 8
      ensures
        var dir := if readingUp then -1 else 1;
        Packed(Read(Column(j, FirstRow(dir, dimension), dir, dimension) + after, functionPattern, value),
          result0, byte0, bits0) ==
        Packed(Read(after, functionPattern, value), result, currentByte, bitsRead)
    {
      hide Read, Packed, Column;
      ghost var dir := if readingUp then -1 else 1;
      ghost var first := FirstRow(dir, dimension);
      result, currentByte, bitsRead := result0, byte0, bits0;
      ghost var goal := Packed(Read(Column(j, first, dir, dimension) + after, functionPattern, value), result,
        currentByte, bitsRead);
      for count := 0 to dimension
        invariant bitsRead < 8
        invariant Packed(Read(Column(j, first + dir * count, dir, dimension) + after, functionPattern, value),
                         result, currentByte, bitsRead) == goal
      {
        var i := if readingUp then dimension - 1 - count else count;
        ghost var rest := Column(j, i + dir, dir, dimension) + after;
        ColumnStep(j, i, dir, dimension);
        assert [Pos(j, i), Pos(j - 1, i)] + Column(j, i + dir, dir, dimension) + after ==
          [Pos(j, i), Pos(j - 1, i)] + rest;
        ReadTwo(Pos(j, i), Pos(j - 1, i), rest, functionPattern, value);
        result, currentByte, bitsRead := ReadOne(j, i, functionPattern, result, currentByte, bitsRead,
          Read([Pos(j - 1, i)] + rest, functionPattern, value), value);
        result, currentByte, bitsRead := ReadOne(j - 1, i, functionPattern, result, currentByte, bitsRead,
          Read(rest, functionPattern, value), value);
      }
      ColumnEnd(j, first + dir * dimension, dir, dimension);
      assert [] + after == after;
    }

    /** One module of the order. */
    method ReadOne(x: int, y: int, functionPattern: set<Pos>, result0: seq<nat>, byte0: nat, bits0: nat,
      ghost rest: seq<bool>, ghost value: Pos -> bool)
      returns (result: seq<nat>, currentByte: nat, bitsRead: nat)
      requires Valid() && 0 <= x < dimension && 0 <= y < dimension && bits0 < 8
      requires forall p :: p in Positions(dimension, dimension) ==> Value(p) == value(p)
      ensures bitsRead < 8
      ensures Packed((if Pos(x, y) in functionPattern then [] else [value(Pos(x, y))]) + rest, result0, byte0, bits0) ==
              Packed(rest, result, currentByte, bitsRead)
    {
      hide Packed;
      result, currentByte, bitsRead := result0, byte0, bits0;
      assert [] + rest == rest;
      if Pos(x, y) !in functionPattern {
        assert Pos(x, y) in Positions(dimension, dimension);
        PackedStep(Get(x, y), rest, result, currentByte, bitsRead);
        result, currentByte, bitsRead := TakeBit(result, currentByte, bitsRead, Get(x, y));
      }
    }

    /**
     Unmasks and reads the codewords along the order of modules. `ok` is false where the source
     throws because their number is not the version's.
     */
    method ReadCodewords(pattern: nat, functionPattern: set<Pos>, totalCodewords: nat)
      returns (ok: bool, result: seq<nat>)
      requires Valid() && pattern < 8 && dimension % 2 == 1 && dimension >= 9
      modifies modules
      ensures result == Packed(Read(Order(dimension), functionPattern, Unmasked(old(Values()), pattern)), [], 0, 0)
      ensures ok <==> |result| == totalCodewords
    {
      hide Read, Packed, IsMasked, Column, Path;
      ghost var before := Values();
      Unmask(pattern);
      ghost var value := Unmasked(before, pattern);
      assert forall p :: p in Positions(dimension, dimension) ==> Value(p) == value(p);
      ghost var goal := Packed(Read(Order(dimension), functionPattern, value), [], 0, 0);
      var readingUp := true;
      result := [];
      var currentByte, bitsRead := 0, 0;
      var j := dimension - 1;
      while j > 0
        invariant -1 <= j < dimension && (j > 6 ==> j % 2 == 0) && (j <= 5 ==> j % 2 != 0)
        invariant bitsRead < 8
        invariant forall p :: p in Positions(dimension, dimension) ==> Value(p) == value(p)
        invariant Packed(Read(Path(j, if readingUp then -1 else 1, dimension), functionPattern, value),
                         result, currentByte, bitsRead) == goal
        decreases j
      {
        ghost var dir := if readingUp then -1 else 1;
        PathStep(j, dir, dimension);
        if j == 6 { j := j - 1; }
        result, currentByte, bitsRead := ReadPair(j, readingUp, functionPattern, result, currentByte, bitsRead,
          Path(j - 2, -dir, dimension), value);
        readingUp := !readingUp;
        j := j - 2;
      }
      PathEnd(j, if readingUp then -1 else 1, dimension);
      ReadNone(functionPattern, value);
      PackedNone(result, currentByte, bitsRead);
      ok := |result| == totalCodewords;
    }
  }

  /** The matrix with the mask undone. */
  ghost function Unmasked(values: map<Pos, bool>, pattern: nat): Pos -> bool
    requires pattern < 8
  {
    p => p in values && p.x >= 0 && p.y >= 0 && values[p] != IsMasked(pattern, p.y, p.x)
  }

  /** Shifts one bit into the current byte and saves the byte when it is whole. */
  method TakeBit(result: seq<nat>, currentByte: nat, bitsRead: nat, bit: bool)
    returns (result': seq<nat>, currentByte': nat, bitsRead': nat)
    requires bitsRead < 8
    ensures bitsRead' == (bitsRead + 1) % 8
    ensures
      var byte := 2 * currentByte + if bit then 1 else 0;
      result' == (if bitsRead == 7 then result + [byte] else result) &&
      currentByte' == if bitsRead == 7 then 0 else byte
  {
    result', currentByte', bitsRead' := result, currentByte, bitsRead + 1;
    currentByte' := 2 * currentByte';
    if bit { currentByte' := currentByte' + 1; }
    if bitsRead' == 8 {
      result' := result' + [currentByte'];
      bitsRead' := 0;
      currentByte' := 0;
    }
  }

  lemma PackedStep(bit: bool, rest: seq<bool>, saved: seq<nat>, cur: nat, n: nat)
    requires n < 8
    ensures
      var byte := 2 * cur + if bit then 1 else 0;
      Packed([bit] + rest, saved, cur, n) ==
        if n == 7 then Packed(rest, saved + [byte], 0, 0) else Packed(rest, saved, byte, n + 1)
  {
    assert ([bit] + rest)[1..] == rest;
  }

  lemma PackedNone(saved: seq<nat>, cur: nat, n: nat)
    requires n < 8
    ensures Packed([], saved, cur, n) == saved
  {
  }

  lemma ReadTwo(p: Pos, q: Pos, rest: seq<Pos>, taken: set<Pos>, value: Pos -> bool)
    ensures Read([p, q] + rest, taken, value) ==
            (if p in taken then [] else [value(p)]) + Read([q] + rest, taken, value)
    ensures Read([q] + rest, taken, value) == (if q in taken then [] else [value(q)]) + Read(rest, taken, value)
  {
    assert ([p, q] + rest)[1..] == [q] + rest;
    assert ([q] + rest)[1..] == rest;
  }

  lemma ReadNone(taken: set<Pos>, value: Pos -> bool)
    ensures Read([], taken, value) == []
  {
  }

  /**
   Placed and read back: a matrix showing the grid after placement reads as the codewords placed,
   provided they fill the free modules but for less than a byte.
   */
  lemma GridRoundTrip(dimension: nat, symbol: map<Pos, bool>, pattern: nat, codewords: seq<nat>, shown: map<Pos, bool>)
    requires dimension % 2 == 1 && dimension >= 9 && pattern < 8
    requires forall k :: 0 <= k < |codewords| ==> codewords[k] < 256
    requires
      var free := |Free(Order(dimension), symbol.Keys)|;
      8 * |codewords| <= free < 8 * |codewords| + 8
    requires
      var placed := Fill(Order(dimension), ByteBits(codewords), pattern, Filling(symbol, 0)).grid;
      forall p :: p in placed ==> p in shown && shown[p] == placed[p]
    ensures Packed(Read(Order(dimension), symbol.Keys, Unmasked(shown, pattern)), [], 0, 0) == codewords
  {
    hide Order, Fill, Free, Packed, Read, Mask, IsMasked, ByteBits;
    var placed := Fill(Order(dimension), ByteBits(codewords), pattern, Filling(symbol, 0)).grid;
    OrderCovers(dimension);
    forall p | p in Order(dimension) && p in placed
      ensures Unmasked(shown, pattern)(p) == (placed[p] != Masked(pattern, p))
    {
      MasksAgree(pattern, p.x, p.y);
    }
    PlacementRoundTrip(dimension, symbol, pattern, codewords, Unmasked(shown, pattern));
  }
}
