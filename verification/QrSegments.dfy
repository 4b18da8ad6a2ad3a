/**
 Content round trip: the reader finds in the printed stream exactly one segment, the content.
 */
module QrSegments {
  import opened Arithmetic
  import opened Octets
  import opened QrBits
  import opened QrVersions
  import opened QrContent
  import opened QrReader

  /** `bits` come next at `pos`. */
  ghost predicate Holds(blocks: seq<nat>, pos: nat, bits: seq<bool>) {
    Stream(blocks, pos, |bits|) == bits
  }

  lemma HoldsSplit(blocks: seq<nat>, pos: nat, a: seq<bool>, b: seq<bool>)
    requires Holds(blocks, pos, a + b)
    ensures Holds(blocks, pos, a) && Holds(blocks, pos + |a|, b)
  {
    hide Stream;
    StreamSplit(blocks, pos, |a|, |b|);
    assert Stream(blocks, pos, |a|) == (a + b)[..|a|] == a;
    assert Stream(blocks, pos + |a|, |b|) == (a + b)[|a|..] == b;
  }

  lemma NumberBack(blocks: seq<nat>, pos: nat, v: nat, n: nat)
    requires Holds(blocks, pos, NatBits(v, n)) && v < Pow2(n)
    ensures Number(blocks, pos, n) == v
  {
    hide Stream, NatBits, ShiftIn, Pow2;
    ShiftInBits(0, v, n);
    SmallRemainder(v, Pow2(n));
  }

  lemma {:induction false} StreamOfTail(blocks: seq<nat>, n: nat)
    requires blocks != []
    ensures Stream(blocks, 8, n) == Stream(blocks[1..], 0, n)
  {
    hide NatBits, Stream;
    var s, t := Stream(blocks, 8, n), Stream(blocks[1..], 0, n);
    forall k | 0 <= k < n ensures s[k] == t[k] {
      StreamAt(blocks, 8, n, k);
      StreamAt(blocks[1..], 0, n, k);
      assert (8 + k) / 8 == 1 + k / 8 && (8 + k) % 8 == k % 8;
    }
    assert s == t;
  }

  /** The stream of bytes is their bits. */
  lemma {:induction false} StreamOfBytes(blocks: seq<nat>)
    ensures Stream(blocks, 0, 8 * |blocks|) == ByteBits(blocks)
  {
    hide NatBits, Stream;
    if blocks == [] {
    } else {
      var n := 8 * (|blocks| - 1);
      StreamSplit(blocks, 0, 8, n);
      StreamInBlock(blocks, 0, 0, 8);
      Pow2Zero(blocks[0]);
      StreamOfTail(blocks, n);
      StreamOfBytes(blocks[1..]);
    }
  }

  // ---------------------------------------------------------------------------------------
  // Each mode

  lemma ThreeDigits(a: Byte, b: Byte, c: Byte)
    requires 0x30 <= a <= 0x39 && 0x30 <= b <= 0x39 && 0x30 <= c <= 0x39
    ensures
      var n := CodeOf(a) * 100 + CodeOf(b) * 10 + CodeOf(c);
      n < 1000 && GroupText(n, 3) == [a, b, c]
  {
    var n := (a - 48) * 100 + (b - 48) * 10 + (c - 48);
    assert n / 10 == (a - 48) * 10 + (b - 48) && n % 10 == c - 48;
    assert n / 10 / 10 == a - 48 && n / 10 % 10 == b - 48;
    ItoaUnfold(n);
    ItoaUnfold(n / 10);
    ItoaUnfold(n / 10 / 10);
  }

  lemma TwoDigits(a: Byte, b: Byte)
    requires 0x30 <= a <= 0x39 && 0x30 <= b <= 0x39
    ensures
      var n := CodeOf(a) * 10 + CodeOf(b);
      n < 100 && GroupText(n, 2) == [a, b]
  {
    var n := (a - 48) * 10 + (b - 48);
    assert n / 10 == a - 48 && n % 10 == b - 48;
    ItoaUnfold(n);
    ItoaUnfold(n / 10);
  }

  lemma ItoaUnfold(n: nat)
    ensures Itoa(n) == if n < 10 then [48 + n] else Itoa(n / 10) + [48 + n % 10]
  {
  }

  lemma GroupLimits()
    ensures Pow2(4) == 16 && Pow2(6) == 64 && Pow2(7) == 128 && Pow2(10) == 1024 && Pow2(11) == 2048
  {
    CountLimits();
    assert Pow2(4) == 16;
    assert Pow2(6) == 4 * Pow2(4);
    assert Pow2(7) == 2 * Pow2(6);
  }

  lemma {:induction false} FigureBack(blocks: seq<nat>, pos: nat, content: seq<Byte>)
    requires Holds(blocks, pos, NumericBits(content)) && Carries(Numeric, content)
    ensures FigureString(blocks, pos, |content|) == content
    ensures FigureBits(|content|) == |NumericBits(content)|
    decreases |content|
  {
    hide Number, GroupText, NatBits, Holds, Pow2, FigureString, FigureBits, CodeOf, NumericBits;
    FigureUnfold(blocks, pos, |content|);
    NumericUnfold(content);
    GroupLimits();
    if |content| >= 3 {
      var n := CodeOf(content[0]) * 100 + CodeOf(content[1]) * 10 + CodeOf(content[2]);
      HoldsSplit(blocks, pos, NatBits(n, 10), NumericBits(content[3..]));
      ThreeDigits(content[0], content[1], content[2]);
      NumberBack(blocks, pos, n, 10);
      FigureBack(blocks, pos + 10, content[3..]);
      GroupTextLong(n, |content|);
      assert content == [content[0], content[1], content[2]] + content[3..];
    } else if |content| == 2 {
      var n := CodeOf(content[0]) * 10 + CodeOf(content[1]);
      TwoDigits(content[0], content[1]);
      NumberBack(blocks, pos, n, 7);
      FigureUnfold(blocks, pos + 7, 0);
    } else if |content| == 1 {
      OneDigit(content[0]);
      NumberBack(blocks, pos, CodeOf(content[0]), 4);
      FigureUnfold(blocks, pos + 4, 0);
    }
  }

  lemma GroupTextLong(n: nat, length: nat)
    requires length >= 3
    ensures GroupText(n, length) == GroupText(n, 3)
  {
  }

  lemma OneDigit(a: Byte)
    requires 0x30 <= a <= 0x39
    ensures CodeOf(a) < 10 && GroupText(CodeOf(a), 1) == [a]
  {
    ItoaUnfold(CodeOf(a));
  }

  /** The reader's table undoes the printer's. */
  lemma TableBack(b: Byte)
    requires AlphanumericCode(b).Some?
    ensures CodeOf(b) < 45 && TableChar(CodeOf(b)) == [b]
  {
  }

  lemma {:induction false} RomanBack(blocks: seq<nat>, pos: nat, content: seq<Byte>)
    requires Holds(blocks, pos, AlphanumericBits(content)) && Carries(Alphanumeric, content)
    ensures RomanString(blocks, pos, |content|) == content
    ensures RomanBits(|content|) == |AlphanumericBits(content)|
    decreases |content|
  {
    hide Number, TableChar, NatBits, Holds, Pow2, CodeOf, AlphanumericCode;
    GroupLimits();
    if |content| >= 2 {
      var n := CodeOf(content[0]) * 45 + CodeOf(content[1]);
      HoldsSplit(blocks, pos, NatBits(n, 11), AlphanumericBits(content[2..]));
      TableBack(content[0]);
      TableBack(content[1]);
      NumberBack(blocks, pos, n, 11);
      assert n / 45 == CodeOf(content[0]) && n % 45 == CodeOf(content[1]);
      RomanBack(blocks, pos + 11, content[2..]);
      assert content == [content[0]] + [content[1]] + content[2..];
    } else if |content| == 1 {
      TableBack(content[0]);
      NumberBack(blocks, pos, CodeOf(content[0]), 6);
    }
  }

  lemma {:induction false} BytesBack(blocks: seq<nat>, pos: nat, content: seq<Byte>)
    requires Holds(blocks, pos, ByteBits(content))
    ensures ByteArray(blocks, pos, |content|) == content
    decreases |content|
  {
    hide Number, NatBits, Holds, Pow2;
    CountLimits();
    if content != [] {
      HoldsSplit(blocks, pos, NatBits(content[0], 8), ByteBits(content[1..]));
      NumberBack(blocks, pos, content[0], 8);
      BytesBack(blocks, pos + 8, content[1..]);
    }
  }

  // ---------------------------------------------------------------------------------------
  // The stream as a whole

  /** Where the parts of a printed stream stand. */
  lemma PartsStand(blocks: seq<nat>, content: seq<Byte>, mode: Mode, v: Version, level: Level)
    requires Printed(ByteBits(blocks), content, mode, v, level)
    ensures |blocks| == DataCodewords(v, level)
    ensures
      var c, body := CharacterCountBits(mode, v), HeaderAndData(mode, content, v);
      && Holds(blocks, 0, NatBits(Indicator(mode), 4))
      && Holds(blocks, 4, NatBits(|content|, c))
      && Holds(blocks, 4 + c, ContentBits(mode, content))
      && Holds(blocks, |body|, Terminator(|body|, DataCodewords(v, level)))
      && |body| == 4 + c + |ContentBits(mode, content)|
  {
    hide NatBits, ContentBits, Stream, Terminator, DataCodewords, Fits, Carries;
    var body, capacity := HeaderAndData(mode, content, v), DataCodewords(v, level);
    StreamOfBytes(blocks);
    TerminatorLength(|body|, capacity);
    HoldsSplit(blocks, 0, body, Terminator(|body|, capacity));
    var first, second := NatBits(Indicator(mode), 4), NatBits(|content|, CharacterCountBits(mode, v));
    HoldsSplit(blocks, 0, first + second, ContentBits(mode, content));
    HoldsSplit(blocks, 0, first, second);
  }

  lemma TerminatorLength(length: nat, capacity: nat)
    requires length <= 8 * capacity
    ensures |Terminator(length, capacity)| == 8 * capacity - length
  {
    var zeros := if 8 * capacity - length < 4 then 8 * capacity - length else 4;
    PaddingLength(capacity - (length + zeros + 7) / 8);
  }

  /** Where at least four bits are left, the terminator reads as mode zero. */
  lemma TerminatorReadsZero(blocks: seq<nat>, pos: nat, capacity: nat)
    requires pos + 4 <= 8 * capacity && Holds(blocks, pos, Terminator(pos, capacity))
    ensures Number(blocks, pos, 4) == 0
  {
    hide Stream;
    TerminatorLength(pos, capacity);
    var t := Terminator(pos, capacity);
    assert t[..4] == Falses(4);
    assert t == t[..4] + t[4..];
    HoldsSplit(blocks, pos, Falses(4), t[4..]);
    FalsesAreZero(4, 0);
  }

  lemma {:induction false} FalsesAreZero(n: nat, v: nat)
    requires v == 0
    ensures ShiftIn(v, Falses(n)) == 0
  {
    if n > 0 {
      assert Falses(n)[1..] == Falses(n - 1);
      FalsesAreZero(n - 1, 0);
    }
  }

  lemma PrintedFits(blocks: seq<nat>, content: seq<Byte>, mode: Mode, v: Version, level: Level)
    requires Printed(ByteBits(blocks), content, mode, v, level)
    ensures Fits(BitsNeeded(mode, content), v, level)
  {
    hide HeaderAndData, Terminator, DataCodewords, Carries, Fits;
  }

  lemma EnoughBlocks(blocks: seq<nat>, content: seq<Byte>, mode: Mode, v: Version, level: Level)
    requires Printed(ByteBits(blocks), content, mode, v, level)
    ensures |blocks| >= 9
  {
    hide *;
    PartsStand(blocks, content, mode, v, level);
    DataCodewordsInBounds(v, level);
  }

  lemma IndicatorSmall(mode: Mode)
    ensures Indicator(mode) < Pow2(4) && Indicator(mode) in {1, 2, 4}
  {
    GroupLimits();
  }

  /** The first read gives the mode, the second the length. */
  lemma HeaderBack(blocks: seq<nat>, content: seq<Byte>, mode: Mode, v: Version, level: Level)
    requires Printed(ByteBits(blocks), content, mode, v, level)
    ensures Number(blocks, 0, 4) == Indicator(mode)
    ensures Number(blocks, 4, CharacterCountBits(mode, v)) == |content|
  {
    hide *;
    PartsStand(blocks, content, mode, v, level);
    IndicatorSmall(mode);
    NumberBack(blocks, 0, Indicator(mode), 4);
    PrintedFits(blocks, content, mode, v, level);
    CountFieldHolds(mode, content, v, level);
    NumberBack(blocks, 4, |content|, CharacterCountBits(mode, v));
  }

  /** Both ends agree on the width of the count field. */
  lemma CountWidths(mode: Mode, v: Version)
    ensures Indicator(mode) in {1, 2, 4}
    ensures SIZE_OF_DATA_LENGTH_INFO[LengthMode(v)][IndexOf(Indicator(mode))] == CharacterCountBits(mode, v)
  {
  }

  /** What follows the content reads as the end, unless the position alone says so. */
  lemma EndBack(blocks: seq<nat>, content: seq<Byte>, mode: Mode, v: Version, level: Level, pos: nat)
    requires Printed(ByteBits(blocks), content, mode, v, level)
    requires pos == |HeaderAndData(mode, content, v)| && pos + 4 <= 8 * |blocks|
    ensures Number(blocks, pos, 4) == 0
  {
    hide *;
    PartsStand(blocks, content, mode, v, level);
    TerminatorReadsZero(blocks, pos, |blocks|);
  }

  /** The content reads back, and the reader then stands at the end of it. */
  lemma ContentBack(blocks: seq<nat>, content: seq<Byte>, mode: Mode, v: Version, level: Level)
    requires Printed(ByteBits(blocks), content, mode, v, level)
    ensures
      var pos := 4 + CharacterCountBits(mode, v);
      match mode
      case Numeric =>
        FigureString(blocks, pos, |content|) == content &&
          pos + FigureBits(|content|) == |HeaderAndData(mode, content, v)|
      case Alphanumeric =>
        RomanString(blocks, pos, |content|) == content &&
          pos + RomanBits(|content|) == |HeaderAndData(mode, content, v)|
      case ByteMode =>
        ByteArray(blocks, pos, |content|) == content && pos + 8 * |content| == |HeaderAndData(mode, content, v)|
  {
    hide NatBits, Stream, Terminator, DataCodewords, Holds, Number, Fits, FigureString, FigureBits, RomanString,
      RomanBits, ByteArray, NumericBits, AlphanumericBits, HeaderAndData;
    PartsStand(blocks, content, mode, v, level);
    var pos := 4 + CharacterCountBits(mode, v);
    match mode
    case Numeric => FigureBack(blocks, pos, content);
    case Alphanumeric => RomanBack(blocks, pos, content);
    case ByteMode => BytesBack(blocks, pos, content);
  }

  // ---------------------------------------------------------------------------------------
  // All segments

  /** What one segment holds, and the bits it takes; none for the kanji mode, where the source fails. */
  function Segment(blocks: seq<nat>, pos: nat, mode: nat, length: nat): (s: seq<nat>) {
    if mode == 1 then FigureString(blocks, pos, length)
    else if mode == 2 then RomanString(blocks, pos, length)
    else ByteArray(blocks, pos, length)
  }

  function SegmentBits(mode: nat, length: nat): nat {
    if mode == 1 then FigureBits(length) else if mode == 2 then RomanBits(length) else 8 * length
  }

  /** The mode found at `pos`: the end where hardly more than the level's number of bytes is left. */
  function ModeAt(blocks: seq<nat>, ec: nat, pos: nat): nat {
    if pos / 8 > |blocks| - ec - 2 then 0 else Number(blocks, pos, 4)
  }

  /** The segments from `pos` on, after those in `output`. */
  function Segments(blocks: seq<nat>, lengthMode: nat, ec: nat, pos: nat, output: seq<seq<nat>>): Result<seq<seq<nat>>>
    requires lengthMode < 3
    decreases 8 * |blocks| - pos
  {
    var mode := ModeAt(blocks, ec, pos);
    if mode == 0 then (if |output| > 0 then Ok(output) else Err(EmptyDataBlock))
    else if mode !in {1, 2, 4, 8} then Err(InvalidMode)
    else
      var n := SIZE_OF_DATA_LENGTH_INFO[lengthMode][IndexOf(mode)];
      var length := Number(blocks, pos + 4, n);
      if length < 1 then Err(InvalidLength)
      else if mode == 8 then Err(KanjiFails)
      else
        Segments(blocks, lengthMode, ec, pos + 4 + n + SegmentBits(mode, length),
          output + [Segment(blocks, pos + 4 + n, mode, length)])
  }

  /** A printed content is the only segment read back, unless it is empty, which the reader refuses. */
  lemma {:induction false} PrintedBack(blocks: seq<nat>, content: seq<Byte>, mode: Mode, v: Version, level: Level)
    requires Printed(ByteBits(blocks), content, mode, v, level)
    ensures Segments(blocks, LengthMode(v), level, 0, []) == if content == [] then Err(InvalidLength) else Ok([content])
  {
    hide NatBits, Number, Printed, FigureString, FigureBits, RomanString, RomanBits, ByteArray, HeaderAndData, ByteBits;
    var end := |HeaderAndData(mode, content, v)|;
    EnoughBlocks(blocks, content, mode, v, level);
    HeaderBack(blocks, content, mode, v, level);
    CountWidths(mode, v);
    if content != [] {
      ContentBack(blocks, content, mode, v, level);
      if end + 4 <= 8 * |blocks| { EndBack(blocks, content, mode, v, level, end); }
      assert ModeAt(blocks, level, end) == 0;
      assert [] + [Segment(blocks, 4 + CharacterCountBits(mode, v), Indicator(mode), |content|)] == [content];
    }
  }

  /** The reader does not know the mode that announces UTF-8. */
  lemma {:induction false} Utf8Refused(blocks: seq<nat>, content: seq<Byte>, v: Version, level: Level)
    requires PrintedAfter(Utf8Header(), ByteBits(blocks), content, ByteMode, v, level)
    ensures Segments(blocks, LengthMode(v), level, 0, []) == Err(InvalidMode)
  {
    hide NatBits, Number, ByteBits, ContentBits, Terminator, DataCodewords, Stream, Fits;
    var capacity := DataCodewords(v, level);
    var body := Utf8Header() + NatBits(|content|, CharacterCountBits(ByteMode, v)) + ContentBits(ByteMode, content);
    TerminatorLength(|body|, capacity);
    DataCodewordsInBounds(v, level);
    StreamOfBytes(blocks);
    var rest := ByteBits(blocks)[4..];
    assert ByteBits(blocks) == NatBits(7, 4) + rest;
    HoldsSplit(blocks, 0, NatBits(7, 4), rest);
    GroupLimits();
    NumberBack(blocks, 0, 7, 4);
  }

  /** A printed text reads back exactly when it is not empty and all its characters are alphanumeric. */
  lemma TextBackIff(blocks: seq<nat>, content: seq<Byte>, v: Version, level: Level)
    requires TextPrinted(ByteBits(blocks), content, v, level)
    ensures
      Segments(blocks, LengthMode(v), level, 0, []) == Ok([content]) <==>
      content != [] && forall k :: 0 <= k < |content| ==> AlphanumericCode(content[k]).Some?
  {
    hide Segments, Printed, PrintedAfter, ByteBits, AlphanumericCode;
    if TextMode(content) == ByteMode {
      Utf8Refused(blocks, content, v, level);
    } else {
      PrintedBack(blocks, content, TextMode(content), v, level);
    }
  }

  /** Collects segments until the end. */
  method DataByte(reader: DataBlockReader) returns (r: Result<seq<seq<nat>>>)
    requires reader.Valid() && reader.dataLengthMode < 3
    modifies reader
    ensures r == Segments(reader.blocks, reader.dataLengthMode, reader.numErrorCorrectionCode, old(reader.Pos()), [])
  {
    hide NatBits, Number, FigureString, FigureBits, RomanString, RomanBits, ByteArray;
    var output: seq<seq<nat>> := [];
    ghost var blocks, lengthMode, ec := reader.blocks, reader.dataLengthMode, reader.numErrorCorrectionCode;
    while true
      invariant reader.Valid()
      invariant Segments(blocks, lengthMode, ec, old(reader.Pos()), []) ==
        Segments(blocks, lengthMode, ec, reader.Pos(), output)
      decreases 8 * |reader.blocks| - reader.Pos()
    {
      var indicator := reader.NextMode();
      if indicator == 0 {
        if |output| > 0 { return Ok(output); }
        return Err(EmptyDataBlock);
      }
      if indicator !in {1, 2, 4, 8} { return Err(InvalidMode); }
      var dataLength := reader.GetDataLength(indicator);
      if dataLength < 1 { return Err(InvalidLength); }
      var s;
      if indicator == 1 {
        s := reader.GetFigureString(dataLength);
      } else if indicator == 2 {
        s := reader.GetRomanAndFigureString(dataLength);
      } else if indicator == 4 {
        s := reader.Get8BitByteArray(dataLength);
      } else {
        return Err(KanjiFails);
      }
      output := output + [s];
    }
  }
}
