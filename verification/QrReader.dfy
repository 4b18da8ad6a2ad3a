/**
 The reader of a QR symbol's data: a bit cursor over the data bytes, and the segments it finds.
 */
module QrReader {
  import opened Arithmetic
  import opened Octets
  import opened QrBits
  import opened QrVersions
  import opened QrContent

  // ---------------------------------------------------------------------------------------
  // Bits of a byte string, highest first

  /** Bytes beyond the end read as zero. */
  function BlockAt(blocks: seq<nat>, i: nat): nat { if i < |blocks| then blocks[i] else 0 }

  function Stream(blocks: seq<nat>, pos: nat, n: nat): (bits: seq<bool>)
    ensures |bits| == n
  {
    seq(n, i requires 0 <= i < n => NatBits(BlockAt(blocks, (pos + i) / 8), 8)[(pos + i) % 8])
  }

  /** The number in the next n bits. */
  function Number(blocks: seq<nat>, pos: nat, n: nat): nat { ShiftIn(0, Stream(blocks, pos, n)) }

  lemma {:induction false} NatBitAt(v: nat, c: nat, k: nat)
    requires k < c
    ensures NatBits(v, c)[k] == (v / Pow2(c - 1 - k) % 2 == 1)
  {
    if k > 0 {
      assert NatBits(v, c)[k] == NatBits(v, c - 1)[k - 1];
      NatBitAt(v, c - 1, k - 1);
    }
  }

  lemma {:induction false} Pow2Add(a: nat, b: nat)
    ensures Pow2(a + b) == Pow2(a) * Pow2(b)
  {
    if a > 0 {
      Pow2Add(a - 1, b);
      assert 2 * (Pow2(a - 1) * Pow2(b)) == 2 * Pow2(a - 1) * Pow2(b);
    }
  }

  /** A number without its lowest bits. */
  function High(v: nat, drop: nat): nat {
    QuotientNat(v, Pow2(drop));
    v / Pow2(drop)
  }

  /** The lowest bits of a number. */
  function Low(v: nat, keep: nat): nat { v % Pow2(keep) }

  /** A run of bits inside a number. */
  lemma NatBitsSlice(v: nat, c: nat, a: nat, n: nat)
    requires a + n <= c
    ensures NatBits(v, c)[a..a + n] == NatBits(High(v, c - a - n), n)
  {
    hide NatBits, Pow2;
    var s, t := NatBits(v, c)[a..a + n], NatBits(High(v, c - a - n), n);
    forall k | 0 <= k < n ensures s[k] == t[k] {
      NatBitAt(v, c, a + k);
      NatBitAt(High(v, c - a - n), n, k);
      Pow2Add(c - a - n, n - 1 - k);
      DivDiv(v, Pow2(c - a - n), Pow2(n - 1 - k));
    }
  }

  lemma StreamAt(blocks: seq<nat>, pos: nat, n: nat, k: nat)
    requires k < n
    ensures Stream(blocks, pos, n)[k] == NatBits(BlockAt(blocks, (pos + k) / 8), 8)[(pos + k) % 8]
  {
    hide NatBits;
  }

  lemma StreamSplit(blocks: seq<nat>, pos: nat, n: nat, m: nat)
    ensures Stream(blocks, pos, n + m) == Stream(blocks, pos, n) + Stream(blocks, pos + n, m)
  {
    hide NatBits, Stream, BlockAt;
    var whole, first, rest := Stream(blocks, pos, n + m), Stream(blocks, pos, n), Stream(blocks, pos + n, m);
    forall k | 0 <= k < n + m ensures whole[k] == (first + rest)[k] {
      StreamAt(blocks, pos, n + m, k);
      if k < n {
        StreamAt(blocks, pos, n, k);
      } else {
        StreamAt(blocks, pos + n, m, k - n);
        assert pos + n + (k - n) == pos + k;
      }
    }
    assert whole == first + rest;
  }

  /** A run of bits inside one byte. */
  lemma StreamInBlock(blocks: seq<nat>, i: nat, a: nat, n: nat)
    requires a + n <= 8
    ensures Stream(blocks, 8 * i + a, n) == NatBits(High(BlockAt(blocks, i), 8 - a - n), n)
  {
    hide NatBits, Stream, BlockAt, High;
    var b := BlockAt(blocks, i);
    NatBitsSlice(b, 8, a, n);
    var s, t := Stream(blocks, 8 * i + a, n), NatBits(b, 8)[a..a + n];
    forall k | 0 <= k < n ensures s[k] == t[k] {
      StreamAt(blocks, 8 * i + a, n, k);
      QuotientIs(8 * i + a + k, 8, i, a + k);
    }
    assert s == t;
  }

  lemma Pow2Zero(v: nat)
    ensures High(v, 0) == v
  {
    assert Pow2(0) == 1;
  }

  /** The next bits within one byte. */
  lemma OneBlock(blocks: seq<nat>, i: nat, a: nat, n: nat)
    requires a + n <= 8
    ensures Number(blocks, 8 * i + a, n) == Low(High(BlockAt(blocks, i), 8 - a - n), n)
  {
    hide NatBits, Pow2, ShiftIn, Stream, High;
    StreamInBlock(blocks, i, a, n);
    ShiftInBits(0, High(BlockAt(blocks, i), 8 - a - n), n);
  }

  /** Reading on: the bits so far move up by those of the part after. */
  lemma NumberSplit(blocks: seq<nat>, pos: nat, n: nat, i: nat, m: nat)
    requires pos + n == 8 * i && m <= 8 && BlockAt(blocks, i) < 256
    ensures Number(blocks, pos, n + m) == Number(blocks, pos, n) * Pow2(m) + High(BlockAt(blocks, i), 8 - m)
  {
    hide NatBits, Pow2, ShiftIn, Stream, High, BlockAt;
    var b := BlockAt(blocks, i);
    StreamSplit(blocks, pos, n, m);
    ShiftInAppend(0, Stream(blocks, pos, n), Stream(blocks, pos + n, m));
    StreamInBlock(blocks, i, 0, m);
    ShiftInBits(Number(blocks, pos, n), High(b, 8 - m), m);
    TopBits(b, m);
  }

  lemma TopBits(b: nat, m: nat)
    requires b < 256 && m <= 8
    ensures High(b, 8 - m) % Pow2(m) == High(b, 8 - m)
  {
    hide Pow2;
    Pow2Add(8 - m, m);
    Pow2Eight();
    QuotientBelow(b, Pow2(8 - m), Pow2(m));
    SmallRemainder(High(b, 8 - m), Pow2(m));
  }

  /** The next bits across two bytes. */
  lemma TwoBlocks(blocks: seq<nat>, i: nat, have: nat, more: nat)
    requires 1 <= have <= 8 && more <= 8 && BlockAt(blocks, i + 1) < 256
    ensures Number(blocks, 8 * i + (8 - have), have + more) ==
            Low(BlockAt(blocks, i), have) * Pow2(more) + High(BlockAt(blocks, i + 1), 8 - more)
  {
    hide Number, Low, High, Pow2, BlockAt;
    OneBlock(blocks, i, 8 - have, have);
    Pow2Zero(BlockAt(blocks, i));
    NumberSplit(blocks, 8 * i + (8 - have), have, i + 1, more);
  }

  /** The next bits across three bytes. */
  lemma ThreeBlocks(blocks: seq<nat>, i: nat, have: nat, more: nat)
    requires 1 <= have <= 8 && more <= 8 && BlockAt(blocks, i + 1) < 256 && BlockAt(blocks, i + 2) < 256
    ensures Number(blocks, 8 * i + (8 - have), have + 8 + more) ==
            Low(BlockAt(blocks, i), have) * Pow2(8 + more) + BlockAt(blocks, i + 1) * Pow2(more)
            + High(BlockAt(blocks, i + 2), 8 - more)
  {
    hide Number, Low, High, Pow2, BlockAt;
    TwoBlocks(blocks, i, have, 8);
    Pow2Zero(BlockAt(blocks, i + 1));
    NumberSplit(blocks, 8 * i + (8 - have), have + 8, i + 2, more);
    Pow2Add(8, more);
    MoveUp(Low(BlockAt(blocks, i), have), BlockAt(blocks, i + 1), Pow2(8), Pow2(more));
  }

  lemma MoveUp(a: nat, b: nat, p: nat, q: nat)
    ensures (a * p + b) * q == a * (p * q) + b * q
  {
    assert a * p * q == a * (p * q);
  }

  // ---------------------------------------------------------------------------------------
  // What the segments mean

  const UNDEFINED: seq<nat> := [117, 110, 100, 101, 102, 105, 110, 101, 100]

  /** The table of characters; an index beyond it appends the word "undefined". */
  function TableChar(k: nat): seq<nat> {
    if k < 10 then [48 + k]
    else if k < 36 then [55 + k]
    else if k == 36 then [32]
    else if k == 37 then [36]
    else if k == 38 then [37]
    else if k == 39 then [42]
    else if k == 40 then [43]
    else if k == 41 then [45]
    else if k == 42 then [46]
    else if k == 43 then [47]
    else if k == 44 then [58]
    else UNDEFINED
  }

  function Zero(yes: bool): seq<nat> { if yes then [48] else [] }

  function GroupSize(length: nat): nat { if length >= 3 then 3 else length }

  function GroupBits(length: nat): nat {
    if length >= 3 then 10 else if length == 2 then 7 else if length == 1 then 4 else 0
  }

  /** The digits of one group; leading zeros by comparison, as the source adds them. */
  function GroupText(n: nat, length: nat): seq<nat> {
    (if length >= 3 then Zero(n < 100) else []) + (if length >= 2 then Zero(n < 10) else []) + Itoa(n)
  }

  function FigureString(blocks: seq<nat>, pos: nat, length: nat): seq<nat>
    decreases length
  {
    if length == 0 then [] else
      GroupText(Number(blocks, pos, GroupBits(length)), length) +
      FigureString(blocks, pos + GroupBits(length), length - GroupSize(length))
  }

  function FigureBits(length: nat): nat {
    if length == 0 then 0 else GroupBits(length) + FigureBits(length - GroupSize(length))
  }

  function RomanString(blocks: seq<nat>, pos: nat, length: nat): seq<nat>
    decreases length
  {
    if length >= 2 then
      var n := Number(blocks, pos, 11);
      TableChar(n / 45) + TableChar(n % 45) + RomanString(blocks, pos + 11, length - 2)
    else if length == 1 then TableChar(Number(blocks, pos, 6))
    else []
  }

  function RomanBits(length: nat): nat {
    if length >= 2 then 11 + RomanBits(length - 2) else if length == 1 then 6 else 0
  }

  function ByteArray(blocks: seq<nat>, pos: nat, length: nat): seq<nat>
    decreases length
  {
    if length == 0 then [] else [Number(blocks, pos, 8)] + ByteArray(blocks, pos + 8, length - 1)
  }

  // ---------------------------------------------------------------------------------------
  // The reader

  datatype ReadError = EmptyDataBlock | InvalidMode | InvalidLength | KanjiFails

  datatype Result<T> = Ok(value: T) | Err(error: ReadError)

  /** The bit pointer after `n` more bits. */
  function Wrapped(bitPointer: int, n: nat): int {
    var p := bitPointer - n % 8;
    if p < 0 then 8 + p else p
  }

  lemma PointerAfter(bitPointer: int, n: nat, blocks: nat)
    requires 0 <= bitPointer <= 7 && bitPointer + 1 <= n < bitPointer + 9
    ensures 0 <= Wrapped(bitPointer, n) <= 7
    ensures 8 * (blocks + 1) + (7 - Wrapped(bitPointer, n)) == 7 - bitPointer + n + 8 * blocks
  {
    if n < 8 {
      assert n % 8 == n;
    } else {
      assert n % 8 == n - 8;
    }
  }

  const SIZE_OF_DATA_LENGTH_INFO: seq<seq<nat>> := [[10, 9, 8, 8], [12, 11, 16, 10], [14, 13, 16, 12]]

  class DataBlockReader {
    const blocks: seq<nat>
    const dataLengthMode: nat
    const numErrorCorrectionCode: nat
    var blockPointer: nat
    var bitPointer: int

    constructor (blocks: seq<nat>, version: Version, numErrorCorrectionCode: nat)
      requires forall k :: 0 <= k < |blocks| ==> blocks[k] < 256
      ensures Valid() && Pos() == 0 && this.blocks == blocks
      ensures this.numErrorCorrectionCode == numErrorCorrectionCode && dataLengthMode == LengthMode(version)
    {
      this.blocks, this.numErrorCorrectionCode := blocks, numErrorCorrectionCode;
      blockPointer, bitPointer := 0, 7;
      dataLengthMode := LengthMode(version);
    }

    ghost predicate Valid()
      reads this
    {
      0 <= bitPointer <= 7 && forall k :: 0 <= k < |blocks| ==> blocks[k] < 256
    }

    /** The number of bits read. */
    ghost function Pos(): nat
      requires Valid()
      reads this
    {
      8 * blockPointer + (7 - bitPointer)
    }

    /**
     The three byte-crossing cases of the source, each with its own shifts; a run of ones as a
     mask is a remainder here. What does not fit three bytes is not read at all.
     */
    method GetNextBits(numBits: nat) returns (bits: nat)
      requires Valid()
      modifies this
      ensures Valid()
      ensures numBits < old(bitPointer) + 17 ==>
        Pos() == old(Pos()) + numBits && bits == Number(blocks, old(Pos()), numBits)
      ensures numBits >= old(bitPointer) + 17 ==> Pos() == old(Pos()) && bits == 0
    {
      hide Number, Pow2, Low, High, Wrapped;
      var have := bitPointer + 1;
      if numBits < have {
        OneBlock(blocks, blockPointer, 8 - have, numBits);
        bits := Low(High(BlockAt(blocks, blockPointer), have - numBits), numBits);
        bitPointer := bitPointer - numBits;
      } else if numBits < have + 8 {
        var more := numBits - have;
        TwoBlocks(blocks, blockPointer, have, more);
        bits := Low(BlockAt(blocks, blockPointer), have) * Pow2(more);
        blockPointer := blockPointer + 1;
        bits := bits + High(BlockAt(blocks, blockPointer), 8 - more);
        PointerAfter(bitPointer, numBits, 0);
        bitPointer := Wrapped(bitPointer, numBits);
      } else if numBits < have + 16 {
        var more := numBits - have - 8;
        ThreeBlocks(blocks, blockPointer, have, more);
        bits := Low(BlockAt(blocks, blockPointer), have) * Pow2(numBits - have);
        blockPointer := blockPointer + 1;
        bits := bits + BlockAt(blocks, blockPointer) * Pow2(more);
        blockPointer := blockPointer + 1;
        bits := bits + High(BlockAt(blocks, blockPointer), 8 - more);
        PointerAfter(bitPointer, numBits - 8, 1);
        bitPointer := Wrapped(bitPointer, numBits - 8);
      } else {
        bits := 0;
      }
    }

    method NextMode() returns (mode: nat)
      requires Valid()
      modifies this
      ensures Valid()
      ensures
        var beyond := old(blockPointer) > |blocks| - numErrorCorrectionCode - 2;
        mode == (if beyond then 0 else Number(blocks, old(Pos()), 4)) &&
        Pos() == old(Pos()) + if beyond then 0 else 4
    {
      hide Number;
      if blockPointer > |blocks| - numErrorCorrectionCode - 2 { return 0; }
      mode := GetNextBits(4);
    }

    method GetDataLength(modeIndicator: nat) returns (length: nat)
      requires Valid() && modeIndicator in {1, 2, 4, 8} && dataLengthMode < 3
      modifies this
      ensures Valid()
      ensures
        var n := SIZE_OF_DATA_LENGTH_INFO[dataLengthMode][IndexOf(modeIndicator)];
        length == Number(blocks, old(Pos()), n) && Pos() == old(Pos()) + n
    {
      hide Number;
      var index, rest := 0, modeIndicator;
      while rest != 1
        invariant rest in {1, 2, 4, 8} && index + IndexOf(rest) == IndexOf(modeIndicator)
        decreases rest
      {
        rest := rest / 2;
        index := index + 1;
      }
      length := GetNextBits(SIZE_OF_DATA_LENGTH_INFO[dataLengthMode][index]);
    }

    /** One turn of the loop over digits. */
    method GetFigures(length: nat) returns (text: seq<nat>, left: nat)
      requires Valid() && length >= 1
      modifies this
      ensures Valid() && text == GroupText(Number(blocks, old(Pos()), GroupBits(length)), length)
      ensures Pos() == old(Pos()) + GroupBits(length) && left == length - GroupSize(length)
    {
      hide Number, Itoa, Wrapped, BlockAt, NatBits, ShiftIn, Stream;
      text := [];
      var intData;
      if length >= 3 {
        intData := GetNextBits(10);
        if intData < 100 { text := text + [48]; }
        if intData < 10 { text := text + [48]; }
        left := length - 3;
      } else if length == 2 {
        intData := GetNextBits(7);
        if intData < 10 { text := text + [48]; }
        left := length - 2;
      } else {
        intData := GetNextBits(4);
        left := length - 1;
      }
      text := text + Itoa(intData);
    }

    method GetFigureString(dataLength: nat) returns (s: seq<nat>)
      requires Valid() && dataLength >= 1
      modifies this
      ensures Valid() && s == FigureString(blocks, old(Pos()), dataLength)
      ensures Pos() == old(Pos()) + FigureBits(dataLength)
    {
      hide Number, GroupText, GroupBits, FigureString, FigureBits;
      var length := dataLength;
      s := [];
      ghost var whole, bits := FigureString(blocks, Pos(), dataLength), FigureBits(dataLength);
      while length > 0
        invariant Valid()
        invariant s + FigureString(blocks, Pos(), length) == whole
        invariant Pos() + FigureBits(length) == old(Pos()) + bits
      {
        FigureUnfold(blocks, Pos(), length);
        var text;
        text, length := GetFigures(length);
        s := s + text;
      }
      FigureUnfold(blocks, Pos(), 0);
    }

    method GetRomanAndFigureString(dataLength: nat) returns (s: seq<nat>)
      requires Valid() && dataLength >= 1
      modifies this
      ensures Valid() && s == RomanString(blocks, old(Pos()), dataLength)
      ensures Pos() == old(Pos()) + RomanBits(dataLength)
    {
      hide Number, TableChar;
      var length := dataLength;
      s := [];
      while length > 0
        invariant Valid()
        invariant s + RomanString(blocks, Pos(), length) == RomanString(blocks, old(Pos()), dataLength)
        invariant Pos() + RomanBits(length) == old(Pos()) + RomanBits(dataLength)
      {
        if length > 1 {
          var intData := GetNextBits(11);
          s := s + TableChar(intData / 45) + TableChar(intData % 45);
          length := length - 2;
        } else {
          var intData := GetNextBits(6);
          s := s + TableChar(intData);
          length := length - 1;
        }
      }
    }

    method Get8BitByteArray(dataLength: nat) returns (s: seq<nat>)
      requires Valid() && dataLength >= 1
      modifies this
      ensures Valid() && s == ByteArray(blocks, old(Pos()), dataLength)
      ensures Pos() == old(Pos()) + 8 * dataLength
    {
      hide Number;
      var length := dataLength;
      s := [];
      while length > 0
        invariant Valid()
        invariant s + ByteArray(blocks, Pos(), length) == ByteArray(blocks, old(Pos()), dataLength)
        invariant Pos() + 8 * length == old(Pos()) + 8 * dataLength
      {
        var intData := GetNextBits(8);
        s := s + [intData];
        length := length - 1;
      }
    }
  }

  lemma FigureUnfold(blocks: seq<nat>, pos: nat, length: nat)
    ensures length > 0 ==>
      FigureString(blocks, pos, length) ==
        GroupText(Number(blocks, pos, GroupBits(length)), length) +
        FigureString(blocks, pos + GroupBits(length), length - GroupSize(length))
    ensures length > 0 ==> FigureBits(length) == GroupBits(length) + FigureBits(length - GroupSize(length))
    ensures length == 0 ==> FigureString(blocks, pos, length) == [] && FigureBits(length) == 0
  {
    hide Number, GroupText;
  }

  function LengthMode(version: Version): nat { if version <= 9 then 0 else if version <= 26 then 1 else 2 }

  function IndexOf(modeIndicator: nat): nat
    requires modeIndicator in {1, 2, 4, 8}
  {
    if modeIndicator == 1 then 0 else if modeIndicator == 2 then 1 else if modeIndicator == 4 then 2 else 3
  }
}
