/**
 The bit stream of a QR symbol: content in one of three modes, its length, the terminator and the
 padding up to the capacity of the version chosen.
 */
module QrContent {
  import opened Octets
  import opened QrBits
  import opened QrVersions

  datatype Mode = Numeric | Alphanumeric | ByteMode

  datatype Option<T> = None | Some(value: T)

  function Indicator(mode: Mode): nat {
    match mode
    case Numeric => 1
    case Alphanumeric => 2
    case ByteMode => 4
  }

  function CharacterCountBits(mode: Mode, v: Version): nat {
    if v <= 9 then match mode { case Numeric => 10 case Alphanumeric => 9 case ByteMode => 8 }
    else if v <= 26 then match mode { case Numeric => 12 case Alphanumeric => 11 case ByteMode => 16 }
    else match mode { case Numeric => 14 case Alphanumeric => 13 case ByteMode => 16 }
  }

  /** The number of a character in the alphanumeric set. */
  function AlphanumericCode(b: Byte): Option<nat> {
    if 0x30 <= b <= 0x39 then Some(b - 0x30)
    else if 0x41 <= b <= 0x5a then Some(b - 0x41 + 10)
    else if b == 0x20 then Some(36)
    else if b == 0x24 then Some(37)
    else if b == 0x25 then Some(38)
    else if b == 0x2a then Some(39)
    else if b == 0x2b then Some(40)
    else if b == 0x2d then Some(41)
    else if b == 0x2e then Some(42)
    else if b == 0x2f then Some(43)
    else if b == 0x3a then Some(44)
    else None
  }

  /** What each mode can carry. */
  predicate Carries(mode: Mode, content: seq<Byte>) {
    match mode
    case Numeric => forall k :: 0 <= k < |content| ==> 0x30 <= content[k] <= 0x39
    case Alphanumeric => forall k :: 0 <= k < |content| ==> AlphanumericCode(content[k]).Some?
    case ByteMode => true
  }

  /** The mode for a text: the narrowest of numeric and alphanumeric, and bytes for all else and for nothing. */
  function TextMode(content: seq<Byte>): (mode: Mode)
    ensures Carries(mode, content)
  {
    if content == [] || exists k :: 0 <= k < |content| && AlphanumericCode(content[k]).None? then ByteMode
    else if forall k :: 0 <= k < |content| ==> 0x30 <= content[k] <= 0x39 then Numeric
    else Alphanumeric
  }

  method GetMode(content: seq<Byte>) returns (mode: Mode)
    ensures mode == TextMode(content)
  {
    var numeric, alphanumeric := false, false;
    for i := 0 to |content|
      invariant forall k :: 0 <= k < i ==> AlphanumericCode(content[k]).Some?
      invariant alphanumeric <==> exists k :: 0 <= k < i && !(0x30 <= content[k] <= 0x39)
      invariant i > 0 ==> numeric || alphanumeric
      invariant numeric ==> i > 0
    {
      var code := AlphanumericCode(content[i]);
      if code.None? { return ByteMode; }
      if code.value < 10 { numeric := true; } else { alphanumeric := true; }
    }
    if alphanumeric { return Alphanumeric; }
    if numeric { return Numeric; }
    mode := ByteMode;
  }

  function CodeOf(b: Byte): nat { if AlphanumericCode(b).Some? then AlphanumericCode(b).value else 0 }

  /** Three digits in ten bits, two in seven, one in four. */
  function NumericBits(content: seq<Byte>): seq<bool> {
    if |content| >= 3 then
      NatBits(CodeOf(content[0]) * 100 + CodeOf(content[1]) * 10 + CodeOf(content[2]), 10) + NumericBits(content[3..])
    else if |content| == 2 then NatBits(CodeOf(content[0]) * 10 + CodeOf(content[1]), 7)
    else if |content| == 1 then NatBits(CodeOf(content[0]), 4)
    else []
  }

  /** Two characters in eleven bits, one in six. */
  function AlphanumericBits(content: seq<Byte>): seq<bool> {
    if |content| >= 2 then
      NatBits(CodeOf(content[0]) * 45 + CodeOf(content[1]), 11) + AlphanumericBits(content[2..])
    else if |content| == 1 then NatBits(CodeOf(content[0]), 6)
    else []
  }

  function ContentBits(mode: Mode, content: seq<Byte>): seq<bool> {
    match mode
    case Numeric => NumericBits(content)
    case Alphanumeric => AlphanumericBits(content)
    case ByteMode => ByteBits(content)
  }

  /** Everything before the terminator. */
  function HeaderAndData(mode: Mode, content: seq<Byte>, v: Version): seq<bool> {
    NatBits(Indicator(mode), 4) + NatBits(|content|, CharacterCountBits(mode, v)) + ContentBits(mode, content)
  }

  /** The bits before the terminator, counted for the largest version. */
  function BitsNeeded(mode: Mode, content: seq<Byte>): nat {
    4 + CharacterCountBits(mode, 40) + |ContentBits(mode, content)|
  }

  // ---------------------------------------------------------------------------------------
  // Lengths

  lemma {:induction false} NumericLength(content: seq<Byte>)
    ensures |NumericBits(content)| == (10 * |content| + 2) / 3
  {
    hide NatBits, CodeOf;
    if |content| >= 3 { NumericLength(content[3..]); }
  }

  lemma {:induction false} AlphanumericLength(content: seq<Byte>)
    ensures |AlphanumericBits(content)| == (11 * |content| + 1) / 2
  {
    hide NatBits, CodeOf;
    if |content| >= 2 { AlphanumericLength(content[2..]); }
  }

  /**
   Of all modes that can carry a text its own is the only shortest one, in the content alone and
   with indicator and count field of any version; digits are always numeric.
   */
  lemma TextModeIsShortest(content: seq<Byte>, mode: Mode, v: Version)
    requires content != [] && Carries(mode, content)
    ensures mode != TextMode(content) ==>
      && |ContentBits(TextMode(content), content)| < |ContentBits(mode, content)|
      && |HeaderAndData(TextMode(content), content, v)| < |HeaderAndData(mode, content, v)|
      && BitsNeeded(TextMode(content), content) < BitsNeeded(mode, content)
    ensures Carries(Numeric, content) <==> TextMode(content) == Numeric
    ensures Carries(Alphanumeric, content) <==> TextMode(content) != ByteMode
  {
    hide NatBits, CodeOf, NumericBits, AlphanumericBits, ByteBits;
    NumericLength(content);
    AlphanumericLength(content);
    DigitsAreAlphanumeric(content);
  }

  lemma DigitsAreAlphanumeric(content: seq<Byte>)
    ensures Carries(Numeric, content) ==> Carries(Alphanumeric, content)
  {
  }

  /** The count field of the version chosen holds the length of every content that fits. */
  lemma CountFieldHolds(mode: Mode, content: seq<Byte>, v: Version, level: Level)
    requires Fits(BitsNeeded(mode, content), v, level)
    ensures |content| < Pow2(CharacterCountBits(mode, v))
  {
    hide NatBits, CodeOf, NumericBits, AlphanumericBits, ByteBits, DataCodewords, Pow2;
    DataCodewordsInBounds(v, level);
    NumericLength(content);
    AlphanumericLength(content);
    CountLimits();
  }

  lemma CountLimits()
    ensures Pow2(8) == 256 && Pow2(9) == 512 && Pow2(10) == 1024 && Pow2(11) == 2048 && Pow2(12) == 4096
    ensures Pow2(13) == 8192 && Pow2(14) == 16384 && Pow2(16) == 65536
  {
    Pow2Eight();
    assert Pow2(10) == 4 * Pow2(8);
    assert Pow2(12) == 4 * Pow2(10);
    assert Pow2(14) == 4 * Pow2(12);
    assert Pow2(16) == 4 * Pow2(14);
  }

  /** A smaller version's count field is no longer than the largest version's, so all of it fits. */
  lemma HeaderFits(header: seq<bool>, mode: Mode, content: seq<Byte>, v: Version, level: Level)
    requires Fits(|header| + |ContentBits(mode, content)| + CharacterCountBits(mode, 40), v, level)
    ensures |header| + CharacterCountBits(mode, v) + |ContentBits(mode, content)| <= 8 * DataCodewords(v, level)
  {
    hide NatBits, ContentBits, DataCodewords;
  }

  // ---------------------------------------------------------------------------------------
  // The printer

  method AppendContent(content: seq<Byte>, mode: Mode, bits0: seq<bool>) returns (ok: bool, bits: seq<bool>)
    ensures ok <==> Carries(mode, content)
    ensures ok ==> bits == bits0 + ContentBits(mode, content)
  {
    match mode {
      case Numeric => ok, bits := AppendNumeric(content, bits0);
      case Alphanumeric => ok, bits := AppendAlphanumeric(content, bits0);
      case ByteMode =>
        ok, bits := true, bits0;
        for i := 0 to |content|
          invariant bits + ByteBits(content[i..]) == bits0 + ByteBits(content)
        {
          assert content[i..][1..] == content[i + 1..];
          bits := bits + NatBits(content[i], 8);
        }
        assert content[|content|..] == [];
    }
  }

  predicate IsDigit(b: Byte) { AlphanumericCode(b).Some? && AlphanumericCode(b).value <= 9 }

  method AppendNumeric(content: seq<Byte>, bits0: seq<bool>) returns (ok: bool, bits: seq<bool>)
    ensures ok <==> Carries(Numeric, content)
    ensures ok ==> bits == bits0 + NumericBits(content)
  {
    hide NatBits, NumericBits;
    bits := bits0;
    var i := 0;
    while i + 2 < |content|
      invariant 0 <= i <= |content| && i % 3 == 0
      invariant forall k :: 0 <= k < i ==> IsDigit(content[k])
      invariant bits + NumericBits(content[i..]) == bits0 + NumericBits(content)
    {
      if !IsDigit(content[i]) || !IsDigit(content[i + 1]) || !IsDigit(content[i + 2]) { return false, bits; }
      NumericUnfold(content[i..]);
      assert content[i..][3..] == content[i + 3..];
      bits := bits + NatBits(CodeOf(content[i]) * 100 + CodeOf(content[i + 1]) * 10 + CodeOf(content[i + 2]), 10);
      i := i + 3;
    }
    NumericUnfold(content[i..]);
    if |content| % 3 == 1 {
      if !IsDigit(content[|content| - 1]) { return false, bits; }
      assert content[i..] == [content[|content| - 1]];
      bits := bits + NatBits(CodeOf(content[|content| - 1]), 4);
    } else if |content| % 3 == 2 {
      if !IsDigit(content[|content| - 2]) || !IsDigit(content[|content| - 1]) { return false, bits; }
      assert content[i..] == [content[|content| - 2], content[|content| - 1]];
      bits := bits + NatBits(CodeOf(content[|content| - 2]) * 10 + CodeOf(content[|content| - 1]), 7);
    } else {
      assert content[i..] == [];
    }
    ok := true;
  }

  lemma NumericUnfold(c: seq<Byte>)
    ensures NumericBits(c) ==
            if |c| >= 3 then NatBits(CodeOf(c[0]) * 100 + CodeOf(c[1]) * 10 + CodeOf(c[2]), 10) + NumericBits(c[3..])
            else if |c| == 2 then NatBits(CodeOf(c[0]) * 10 + CodeOf(c[1]), 7)
            else if |c| == 1 then NatBits(CodeOf(c[0]), 4)
            else []
  {
    hide NatBits, CodeOf;
  }

  method AppendAlphanumeric(content: seq<Byte>, bits0: seq<bool>) returns (ok: bool, bits: seq<bool>)
    ensures ok <==> Carries(Alphanumeric, content)
    ensures ok ==> bits == bits0 + AlphanumericBits(content)
  {
    hide NatBits, AlphanumericCode;
    bits := bits0;
    var i := 0;
    while i + 1 < |content|
      invariant 0 <= i <= |content| && i % 2 == 0
      invariant forall k :: 0 <= k < i ==> AlphanumericCode(content[k]).Some?
      invariant bits + AlphanumericBits(content[i..]) == bits0 + AlphanumericBits(content)
    {
      if AlphanumericCode(content[i]).None? || AlphanumericCode(content[i + 1]).None? { return false, bits; }
      assert content[i..][2..] == content[i + 2..];
      bits := bits + NatBits(CodeOf(content[i]) * 45 + CodeOf(content[i + 1]), 11);
      i := i + 2;
    }
    if |content| % 2 == 1 {
      if AlphanumericCode(content[|content| - 1]).None? { return false, bits; }
      assert content[i..] == [content[|content| - 1]];
      bits := bits + NatBits(CodeOf(content[|content| - 1]), 6);
    } else {
      assert content[i..] == [];
    }
    ok := true;
  }

  /** The bytes that fill up a symbol, in turns. */
  function Padding(n: nat): seq<bool> {
    if n == 0 then [] else if n == 1 then NatBits(0xec, 8) else NatBits(0xec, 8) + NatBits(0x11, 8) + Padding(n - 2)
  }

  function Falses(n: nat): (s: seq<bool>)
    ensures |s| == n
  {
    seq(n, i => false)
  }

  /** Up to four zeros, zeros to the next byte, then padding bytes. */
  function Terminator(length: nat, capacity: nat): seq<bool>
    requires length <= 8 * capacity
  {
    var zeros := if 8 * capacity - length < 4 then 8 * capacity - length else 4;
    var filled := (length + zeros + 7) / 8;
    Falses(8 * filled - length) + Padding(capacity - filled)
  }

  lemma {:induction false} PaddingLength(n: nat)
    ensures |Padding(n)| == 8 * n
  {
    hide NatBits;
    if n >= 2 { PaddingLength(n - 2); }
  }

  /** Whole padding bytes up to the capacity. */
  method AppendPadding(capacityBytes: nat, bits0: seq<bool>) returns (bits: seq<bool>)
    requires |bits0| % 8 == 0 && |bits0| <= 8 * capacityBytes
    ensures bits == bits0 + Padding(capacityBytes - |bits0| / 8) && |bits| == 8 * capacityBytes
  {
    hide NatBits, Padding;
    var capacity := capacityBytes * 8;
    ghost var left: int := capacityBytes - |bits0| / 8;
    bits := bits0;
    while true
      invariant left >= 0 && |bits| == 8 * (capacityBytes - left)
      invariant bits + Padding(left) == bits0 + Padding(capacityBytes - |bits0| / 8)
      decreases left
    {
      PaddingUnfold(left);
      if |bits| >= capacity { break; }
      bits := bits + NatBits(0xec, 8);
      if |bits| >= capacity {
        left := left - 1;
        break;
      }
      bits := bits + NatBits(0x11, 8);
      left := left - 2;
    }
    PaddingUnfold(0);
    assert bits + Padding(0) == bits;
  }

  lemma PaddingUnfold(n: nat)
    ensures Padding(0) == [] && Padding(1) == NatBits(0xec, 8) + Padding(0)
    ensures n >= 2 ==> Padding(n) == NatBits(0xec, 8) + NatBits(0x11, 8) + Padding(n - 2)
  {
    hide NatBits;
  }

  /** Zeros up to a whole byte. */
  method FillByte(bits0: seq<bool>) returns (bits: seq<bool>)
    ensures |bits| == 8 * ((|bits0| + 7) / 8) && bits == bits0 + Falses(|bits| - |bits0|)
  {
    bits := bits0;
    if |bits| % 8 != 0 {
      for k := |bits| % 8 to 8
        invariant |bits0| % 8 <= k && |bits| == |bits0| - |bits0| % 8 + k
        invariant bits == bits0 + Falses(|bits| - |bits0|)
      {
        bits := bits + [false];
      }
    }
  }

  /**
   Terminates and pads; refuses only what is already too long, and never ends anywhere but at the
   capacity.
   */
  method AppendTerminator(capacityBytes: nat, bits0: seq<bool>) returns (ok: bool, bits: seq<bool>)
    ensures ok <==> |bits0| <= 8 * capacityBytes
    ensures ok ==> bits == bits0 + Terminator(|bits0|, capacityBytes) && |bits| == 8 * capacityBytes
  {
    hide NatBits;
    var capacity := capacityBytes * 8;
    bits := bits0;
    if |bits| > capacity { return false, bits; }
    var i := 0;
    while i < 4 && |bits| < capacity
      invariant 0 <= i <= 4 && |bits| == |bits0| + i <= capacity
      invariant bits == bits0 + Falses(i)
    {
      bits := bits + [false];
      i := i + 1;
    }
    ghost var zeros := bits;
    bits := FillByte(bits);
    assert Falses(i) + Falses(|bits| - |zeros|) == Falses(|bits| - |bits0|);
    bits := AppendPadding(capacityBytes, bits);
    ok := |bits| == capacity;
  }

  /** Announces UTF-8 and then a segment of bytes. */
  function Utf8Header(): (header: seq<bool>)
    ensures |header| == 16
  {
    NatBits(7, 4) + NatBits(26, 8) + NatBits(Indicator(ByteMode), 4)
  }

  /** The bits needed after a header, counted for the largest version. */
  function BitsAfter(header: seq<bool>, mode: Mode, content: seq<Byte>): nat {
    |header| + |ContentBits(mode, content)| + CharacterCountBits(mode, 40)
  }

  /** The stream printed for a content after a header. */
  ghost predicate PrintedAfter(header: seq<bool>, bits: seq<bool>, content: seq<Byte>, mode: Mode, v: Version,
      level: Level) {
    && Carries(mode, content)
    && Fits(BitsAfter(header, mode, content), v, level)
    && DataCodewords(v, level) >= 0
    && var body := header + NatBits(|content|, CharacterCountBits(mode, v)) + ContentBits(mode, content);
       |body| <= 8 * DataCodewords(v, level) && bits == body + Terminator(|body|, DataCodewords(v, level))
  }

  /** The whole stream of a symbol and its version, or nothing when the content is too large. */
  method MakeContentBits(content: seq<Byte>, level: Level, mode: Mode, headerBits: seq<bool>)
    returns (ok: bool, bits: seq<bool>, v: Version)
    requires Carries(mode, content)
    ensures ok ==> PrintedAfter(headerBits, bits, content, mode, v, level) && |bits| == 8 * DataCodewords(v, level)
    ensures ok <==> SomeVersionFits(BitsAfter(headerBits, mode, content), level)
  {
    hide NatBits, DataCodewords, Carries, SomeVersionFits;
    var accepted, dataBits := AppendContent(content, mode, []);
    assert dataBits == ContentBits(mode, content);
    var bitsNeeded := |headerBits| + |dataBits| + CharacterCountBits(mode, 40);
    bits := [];
    ok, v := ChooseVersion(bitsNeeded, level);
    if !ok { return; }
    var headerAndDataBits := headerBits + NatBits(|content|, CharacterCountBits(mode, v)) + dataBits;
    HeaderFits(headerBits, mode, content, v, level);
    DataCodewordsInBounds(v, level);
    accepted, bits := AppendTerminator(DataCodewords(v, level), headerAndDataBits);
  }

  method BinaryContentBits(content: seq<Byte>, level: Level) returns (ok: bool, bits: seq<bool>, v: Version)
    ensures ok ==> Printed(bits, content, ByteMode, v, level) && |bits| == 8 * DataCodewords(v, level)
    ensures ok <==> SomeVersionFits(BitsNeeded(ByteMode, content), level)
  {
    hide NatBits, DataCodewords, Terminator, Fits, SomeVersionFits;
    ok, bits, v := MakeContentBits(content, level, ByteMode, NatBits(Indicator(ByteMode), 4));
  }

  /** A text goes out in its own mode, as UTF-8 bytes where that is the byte mode. */
  ghost predicate TextPrinted(bits: seq<bool>, content: seq<Byte>, v: Version, level: Level) {
    if TextMode(content) == ByteMode then PrintedAfter(Utf8Header(), bits, content, ByteMode, v, level)
    else Printed(bits, content, TextMode(content), v, level)
  }

  function TextBitsNeeded(content: seq<Byte>): nat {
    BitsNeeded(TextMode(content), content) + if TextMode(content) == ByteMode then 12 else 0
  }

  method StringContentBits(content: seq<Byte>, level: Level) returns (ok: bool, bits: seq<bool>, v: Version)
    ensures ok ==> TextPrinted(bits, content, v, level) && |bits| == 8 * DataCodewords(v, level)
    ensures ok <==> SomeVersionFits(TextBitsNeeded(content), level)
  {
    hide NatBits, DataCodewords, Terminator, Fits, SomeVersionFits, TextMode, Carries;
    var headerBits: seq<bool> := [];
    var mode := GetMode(content);
    if mode == ByteMode { headerBits := headerBits + NatBits(7, 4) + NatBits(26, 8); }
    headerBits := headerBits + NatBits(Indicator(mode), 4);
    assert headerBits == if mode == ByteMode then Utf8Header() else NatBits(Indicator(mode), 4);
    ok, bits, v := MakeContentBits(content, level, mode, headerBits);
  }

  /** The stream printed for a content. */
  ghost predicate Printed(bits: seq<bool>, content: seq<Byte>, mode: Mode, v: Version, level: Level) {
    && Carries(mode, content)
    && Fits(BitsNeeded(mode, content), v, level)
    && DataCodewords(v, level) >= 0
    && var body := HeaderAndData(mode, content, v);
       |body| <= 8 * DataCodewords(v, level) && bits == body + Terminator(|body|, DataCodewords(v, level))
  }
}
