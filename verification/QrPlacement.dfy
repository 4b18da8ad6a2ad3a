/**
 The order in which modules of a QR symbol carry data, the masks, and what the printer's fill and
 the parser's read along that order mean.
 */
module QrPlacement {
  import opened QrBits

  datatype Pos = Pos(x: int, y: int)

  // ---------------------------------------------------------------------------------------
  // Masks

  /** The printer's masks; x is the column. */
  predicate Mask(pattern: nat, x: nat, y: nat) {
    if pattern == 0 then (x + y) % 2 == 0
    else if pattern == 1 then y % 2 == 0
    else if pattern == 2 then x % 3 == 0
    else if pattern == 3 then (x + y) % 3 == 0
    else if pattern == 4 then (x / 3 + y / 2) % 2 == 0
    else if pattern == 5 then x * y % 2 + x * y % 3 == 0
    else if pattern == 6 then (x * y % 2 + x * y % 3) % 2 == 0
    else if pattern == 7 then (x * y % 3 + (x + y) % 2) % 2 == 0
    else false
  }

  /** The parser's masks; i is the row, and a third of the column is not a whole number there. */
  predicate IsMasked(pattern: nat, i: nat, j: nat)
    requires pattern < 8
  {
    match pattern
    case 0 => (i + j) % 2 == 0
    case 1 => i % 2 == 0
    case 2 => j % 3 == 0
    case 3 => (i + j) % 3 == 0
    case 4 => ((i / 2) as real + j as real / 3.0).Floor % 2 == 0
    case 5 => i * j % 2 + i * j % 3 == 0
    case 6 => (i * j % 2 + i * j % 3) % 2 == 0
    case _ => ((i + j) % 2 + i * j % 3) % 2 == 0
  }

  lemma ThirdFloor(a: nat, j: nat)
    ensures (a as real + j as real / 3.0).Floor == a + j / 3
  {
    var q, r := j / 3, j % 3;
    assert j == 3 * q + r;
    assert a as real + j as real / 3.0 == (a + q) as real + r as real / 3.0;
  }

  /** Both ends use the same eight masks. */
  lemma MasksAgree(pattern: nat, x: nat, y: nat)
    requires pattern < 8
    ensures Mask(pattern, x, y) <==> IsMasked(pattern, y, x)
  {
    ThirdFloor(y / 2, x);
    assert x * y == y * x;
  }

  // ---------------------------------------------------------------------------------------
  // The order of modules

  /** The rows of a pair of columns from row y on, right module first. */
  function Column(x: int, y: int, dir: int, h: nat): seq<Pos>
    requires dir == 1 || dir == -1
    decreases if dir == 1 then h - y else y + 1
  {
    if y < 0 || y >= h then [] else [Pos(x, y), Pos(x - 1, y)] + Column(x, y + dir, dir, h)
  }

  function FirstRow(dir: int, h: nat): int { if dir == 1 then 0 else h - 1 }

  /** The pair of columns that ends at x, stepping over the vertical timing pattern. */
  function PairAt(x: int): int { if x == 6 then 5 else x }

  /** Pairs of columns from the right, up and down in turns. */
  function Path(x: int, dir: int, h: nat): seq<Pos>
    requires dir == 1 || dir == -1
    decreases x
  {
    if x <= 0 then [] else Column(PairAt(x), FirstRow(dir, h), dir, h) + Path(PairAt(x) - 2, -dir, h)
  }

  ghost predicate Distinct(path: seq<Pos>) {
    forall i, j :: 0 <= i < j < |path| ==> path[i] != path[j]
  }

  lemma {:induction false} ColumnMembers(x: int, y: int, dir: int, h: nat, p: Pos)
    requires dir == 1 || dir == -1
    ensures p in Column(x, y, dir, h) <==>
            (p.x == x || p.x == x - 1) && 0 <= y < h && (if dir == 1 then y <= p.y < h else 0 <= p.y <= y)
    decreases if dir == 1 then h - y else y + 1
  {
    if 0 <= y < h {
      ColumnMembers(x, y + dir, dir, h, p);
      assert p in Column(x, y, dir, h) <==> p == Pos(x, y) || p == Pos(x - 1, y) || p in Column(x, y + dir, dir, h);
    }
  }

  lemma DistinctAppend(a: seq<Pos>, b: seq<Pos>)
    requires Distinct(a) && Distinct(b) && forall p :: p in a ==> p !in b
    ensures Distinct(a + b)
  {
    forall i, j | 0 <= i < j < |a + b| ensures (a + b)[i] != (a + b)[j] {
      if i < |a| <= j { assert a[i] in a && b[j - |a|] in b; }
    }
  }

  lemma {:induction false} ColumnDistinct(x: int, y: int, dir: int, h: nat)
    requires dir == 1 || dir == -1
    ensures Distinct(Column(x, y, dir, h))
    decreases if dir == 1 then h - y else y + 1
  {
    if 0 <= y < h {
      var rest := Column(x, y + dir, dir, h);
      ColumnDistinct(x, y + dir, dir, h);
      ColumnMembers(x, y + dir, dir, h, Pos(x, y));
      ColumnMembers(x, y + dir, dir, h, Pos(x - 1, y));
      DistinctAppend([Pos(x, y), Pos(x - 1, y)], rest);
    }
  }

  /** Every module outside the timing column comes up, and nothing outside the symbol. */
  lemma {:induction false} PathMembers(x: int, dir: int, h: nat, p: Pos)
    requires (dir == 1 || dir == -1) && x >= -1 && (x > 6 ==> x % 2 == 0) && (x <= 5 ==> x % 2 != 0)
    ensures p in Path(x, dir, h) <==> 0 <= p.x <= x && p.x != 6 && 0 <= p.y < h
    decreases x
  {
    if x > 0 {
      var c := PairAt(x);
      PathMembers(c - 2, -dir, h, p);
      ColumnMembers(c, FirstRow(dir, h), dir, h, p);
      assert p in Path(x, dir, h) <==> p in Column(c, FirstRow(dir, h), dir, h) || p in Path(c - 2, -dir, h);
    }
  }

  lemma {:induction false} PathDistinct(x: int, dir: int, h: nat)
    requires (dir == 1 || dir == -1) && x >= -1 && (x > 6 ==> x % 2 == 0) && (x <= 5 ==> x % 2 != 0)
    ensures Distinct(Path(x, dir, h))
    decreases x
  {
    if x > 0 {
      var c := PairAt(x);
      var first, rest := Column(c, FirstRow(dir, h), dir, h), Path(c - 2, -dir, h);
      PathDistinct(c - 2, -dir, h);
      ColumnDistinct(c, FirstRow(dir, h), dir, h);
      forall p | p in first ensures p !in rest {
        ColumnMembers(c, FirstRow(dir, h), dir, h, p);
        PathMembers(c - 2, -dir, h, p);
      }
      DistinctAppend(first, rest);
    }
  }

  /** The whole order for a symbol of `dimension` modules a side. */
  function Order(dimension: nat): seq<Pos> { Path(dimension - 1, -1, dimension) }

  /** Each module outside the timing column comes up exactly once. */
  lemma OrderCovers(dimension: nat)
    requires dimension % 2 == 1 && dimension >= 9
    ensures Distinct(Order(dimension))
    ensures forall p :: p in Order(dimension) <==> 0 <= p.x < dimension && p.x != 6 && 0 <= p.y < dimension
  {
    hide Path, Distinct;
    PathDistinct(dimension - 1, -1, dimension);
    forall p ensures p in Order(dimension) <==> 0 <= p.x < dimension && p.x != 6 && 0 <= p.y < dimension {
      PathMembers(dimension - 1, -1, dimension, p);
    }
  }

  /** A pair of columns row by row, right module first. */
  lemma {:induction false} ColumnAt(x: int, y: nat, dir: int, h: nat, k: nat)
    requires (dir == 1 || dir == -1) && y < h && k < 2 * (if dir == 1 then h - y else y + 1)
    ensures |Column(x, y, dir, h)| == 2 * if dir == 1 then h - y else y + 1
    ensures Column(x, y, dir, h)[k] == Pos(x - k % 2, if dir == 1 then y + k / 2 else y - k / 2)
    decreases if dir == 1 then h - y else y + 1
  {
    if 0 <= y + dir < h { ColumnAt(x, y + dir, dir, h, if k < 2 then 0 else k - 2); }
  }

  /** The right column of the c-th pair, counted from the right. */
  function RightOf(x: int, c: nat): int { if x % 2 == 0 && x - 2 * c <= 6 then x - 2 * c - 1 else x - 2 * c }

  /** Where the c-th pair begins. */
  function Start(h: nat, c: nat): nat { 2 * h * c }

  lemma NextStart(h: nat, c: nat)
    ensures Start(h, 0) == 0 && Start(h, c + 1) == 2 * h + Start(h, c)
  {
  }

  lemma {:induction false} PathAt(x: int, dir: int, h: nat, c: nat, k: nat)
    requires (dir == 1 || dir == -1) && (x > 6 ==> x % 2 == 0) && (x <= 5 ==> x % 2 != 0)
    requires c < (x + 1) / 2 && k < 2 * h
    ensures Start(h, c) + k < |Path(x, dir, h)| == Start(h, (x + 1) / 2)
    ensures Path(x, dir, h)[Start(h, c) + k] ==
      Pos(RightOf(x, c) - k % 2, if (dir == 1) == (c % 2 == 0) then k / 2 else h - 1 - k / 2)
    decreases x
  {
    hide Column, Start;
    var next := PairAt(x) - 2;
    ColumnAt(PairAt(x), FirstRow(dir, h), dir, h, k);
    assert (next + 1) / 2 + 1 == (x + 1) / 2;
    NextStart(h, (next + 1) / 2);
    if next > 0 { PathAt(next, -dir, h, if c == 0 then 0 else c - 1, k); }
    if c > 0 {
      NextStart(h, c - 1);
      assert RightOf(x, c) == RightOf(next, c - 1);
    }
  }

  /**
   Where each place of the order is: pairs of columns from the right, the first from the bottom
   upwards, the next downwards and so on, in each row the right module first, and the timing column
   stepped over.
   */
  lemma OrderAt(dimension: nat, c: nat, k: nat)
    requires dimension % 2 == 1 && dimension >= 9 && c < (dimension - 1) / 2 && k < 2 * dimension
    ensures 2 * dimension * c + k < |Order(dimension)| == 2 * dimension * ((dimension - 1) / 2)
    ensures
      var right := if dimension - 1 - 2 * c > 6 then dimension - 1 - 2 * c else dimension - 2 - 2 * c;
      Order(dimension)[2 * dimension * c + k] ==
      Pos(right - k % 2, if c % 2 == 0 then dimension - 1 - k / 2 else k / 2)
  {
    hide Path;
    PathAt(dimension - 1, -1, dimension, c, k);
  }

  // ---------------------------------------------------------------------------------------
  // Filling

  /** A grid in which set modules have a value, and the number of bits used so far. */
  datatype Filling = Filling(grid: map<Pos, bool>, used: nat)

  predicate BitAt(bits: seq<bool>, k: nat) { k < |bits| && bits[k] }

  predicate Masked(pattern: nat, p: Pos) { p.x >= 0 && p.y >= 0 && Mask(pattern, p.x, p.y) }

  /** One module: skipped when set, and zero once the bits have run out. */
  function FillOne(p: Pos, bits: seq<bool>, pattern: nat, f: Filling): Filling {
    if p in f.grid then f
    else Filling(f.grid[p := BitAt(bits, f.used) != Masked(pattern, p)], if f.used < |bits| then f.used + 1 else f.used)
  }

  function Fill(path: seq<Pos>, bits: seq<bool>, pattern: nat, f: Filling): Filling {
    if path == [] then f else Fill(path[1..], bits, pattern, FillOne(path[0], bits, pattern, f))
  }

  /** The members of the path outside `taken`, in order. */
  function Free(path: seq<Pos>, taken: set<Pos>): seq<Pos> {
    if path == [] then []
    else if path[0] in taken then Free(path[1..], taken)
    else [path[0]] + Free(path[1..], taken)
  }

  function Least(a: nat, b: nat): nat { if a < b then a else b }

  lemma {:induction false} FreeMembers(path: seq<Pos>, taken: set<Pos>, p: Pos)
    ensures p in Free(path, taken) <==> p in path && p !in taken
  {
    if path != [] {
      FreeMembers(path[1..], taken, p);
      assert p in path <==> p == path[0] || p in path[1..];
    }
  }

  lemma {:induction false} FreeGrows(path: seq<Pos>, taken: set<Pos>, p: Pos)
    requires p !in path
    ensures Free(path, taken + {p}) == Free(path, taken)
  {
    if path != [] {
      assert path[0] in path;
      FreeGrows(path[1..], taken, p);
    }
  }

  /**
   Filling sets each free module once: the k-th gets the k-th bit, masked, or a masked zero; set
   modules keep their value.
   */
  lemma {:induction false} FillMeaning(path: seq<Pos>, bits: seq<bool>, pattern: nat, f: Filling)
    requires Distinct(path) && f.used <= |bits|
    ensures
      var r, free := Fill(path, bits, pattern, f), Free(path, f.grid.Keys);
      && r.used == Least(|bits|, f.used + |free|)
      && (forall p :: p in r.grid <==> p in f.grid || p in path)
      && (forall p :: p in f.grid ==> p in r.grid && r.grid[p] == f.grid[p])
      && (forall k :: 0 <= k < |free| ==>
          free[k] in r.grid && r.grid[free[k]] == (BitAt(bits, f.used + k) != Masked(pattern, free[k])))
  {
    hide BitAt, Masked;
    if path != [] {
      var p, rest := path[0], path[1..];
      var g := FillOne(p, bits, pattern, f);
      FillMeaning(rest, bits, pattern, g);
      assert p !in rest;
      if p !in f.grid {
        assert g.grid.Keys == f.grid.Keys + {p};
        FreeGrows(rest, f.grid.Keys, p);
        var r, free := Fill(path, bits, pattern, f), Free(path, f.grid.Keys);
        forall k | 0 <= k < |free|
          ensures free[k] in r.grid && r.grid[free[k]] == (BitAt(bits, f.used + k) != Masked(pattern, free[k]))
        {
          if k > 0 {
            assert free[k] == Free(rest, g.grid.Keys)[k - 1];
            NoMoreBits(bits, f.used + k);
            NoMoreBits(bits, g.used + (k - 1));
          }
        }
      }
    }
  }

  lemma NoMoreBits(bits: seq<bool>, k: nat)
    ensures k >= |bits| ==> !BitAt(bits, k)
  {
  }

  // ---------------------------------------------------------------------------------------
  // Reading

  /** The values along the path outside the function modules. */
  function Read(path: seq<Pos>, functionModules: set<Pos>, value: Pos -> bool): seq<bool> {
    if path == [] then []
    else if path[0] in functionModules then Read(path[1..], functionModules, value)
    else [value(path[0])] + Read(path[1..], functionModules, value)
  }

  lemma {:induction false} ReadIsFree(path: seq<Pos>, taken: set<Pos>, value: Pos -> bool)
    ensures |Read(path, taken, value)| == |Free(path, taken)|
    ensures forall k :: 0 <= k < |Read(path, taken, value)| ==>
      Read(path, taken, value)[k] == value(Free(path, taken)[k])
  {
    if path != [] { ReadIsFree(path[1..], taken, value); }
  }

  /**
   Placement round trip: the codewords placed come back, for every symbol size, set of function
   modules around the timing column and mask, if they fill the free modules but for less than a
   byte.
   */
  lemma PlacementRoundTrip(dimension: nat, symbol: map<Pos, bool>, pattern: nat, codewords: seq<nat>,
      value: Pos -> bool)
    requires dimension % 2 == 1 && dimension >= 9 && pattern < 8
    requires forall k :: 0 <= k < |codewords| ==> codewords[k] < 256
    requires
      var free := |Free(Order(dimension), symbol.Keys)|;
      8 * |codewords| <= free < 8 * |codewords| + 8
    requires
      var placed := Fill(Order(dimension), ByteBits(codewords), pattern, Filling(symbol, 0)).grid;
      forall p :: p in Order(dimension) && p in placed ==> value(p) == (placed[p] != Masked(pattern, p))
    ensures Packed(Read(Order(dimension), symbol.Keys, value), [], 0, 0) == codewords
  {
    hide Order, Fill, Free, Packed, Read, Masked, Distinct, ByteBits;
    var path, bits := Order(dimension), ByteBits(codewords);
    OrderCovers(dimension);
    FillMeaning(path, bits, pattern, Filling(symbol, 0));
    ReadIsFree(path, symbol.Keys, value);
    var read, free := Read(path, symbol.Keys, value), Free(path, symbol.Keys);
    forall k | 0 <= k < |free| ensures read[k] == BitAt(bits, k) {
      FreeMembers(path, symbol.Keys, free[k]);
    }
    var extra := read[|bits|..];
    assert read == bits + extra;
    PackedBytes(codewords, extra, []);
    assert [] + codewords == codewords;
  }
}
