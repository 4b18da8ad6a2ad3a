/**
 Base64 in three alphabets, with and without line breaks: the encoder fills a buffer sized in
 advance, the decoder skips white space and stops at the padding.
 */
module Base64 {
  import opened Octets

  datatype Alphabet = Standard | UrlSafe | Ordered

  const EQUALS_SIGN: Byte := 61
  const NEW_LINE: Byte := 10
  const MAX_LINE_LENGTH := 76

  /** The character for a six-bit value. */
  function Char(alphabet: Alphabet, i: nat): Byte
    requires i < 64
  {
    if alphabet == Ordered then
      if i == 0 then 45 else if i < 11 then 47 + i else if i < 37 then 54 + i else if i == 37 then 95 else 59 + i
    else if i < 26 then 65 + i
    else if i < 52 then 71 + i
    else if i < 62 then i - 4
    else if i == 62 then (if alphabet == Standard then 43 else 45)
    else (if alphabet == Standard then 47 else 95)
  }

  /** What the decoding table says of a byte. */
  datatype Code = Bad | White | Padding | Value(v: nat)

  function Decodabet(alphabet: Alphabet, c: Byte): (code: Code)
    ensures code.Value? ==> code.v < 64
  {
    if c == 9 || c == 10 || c == 13 || c == 32 then White
    else if c == 61 then Padding
    else if alphabet == Ordered then
      if c == 45 then Value(0)
      else if 48 <= c <= 57 then Value(c - 47)
      else if 65 <= c <= 90 then Value(c - 54)
      else if c == 95 then Value(37)
      else if 97 <= c <= 122 then Value(c - 59)
      else Bad
    else if 48 <= c <= 57 then Value(c + 4)
    else if 65 <= c <= 90 then Value(c - 65)
    else if 97 <= c <= 122 then Value(c - 71)
    else if c == (if alphabet == Standard then 43 else 45) then Value(62)
    else if c == (if alphabet == Standard then 47 else 95) then Value(63)
    else Bad
  }

  /** The table's entry as the unsigned byte that the decoder shifts; the marks are negative there. */
  function Entry(alphabet: Alphabet, c: Byte): Byte {
    match Decodabet(alphabet, c)
    case Bad => 0xf7
    case White => 0xfb
    case Padding => 0xff
    case Value(v) => v
  }

  /** The decoding table of each alphabet undoes the encoding table. */
  lemma CharDecodes(alphabet: Alphabet, i: nat)
    requires i < 64
    ensures Decodabet(alphabet, Char(alphabet, i)) == Value(i)
    ensures Char(alphabet, i) != EQUALS_SIGN && Entry(alphabet, Char(alphabet, i)) == i
  {
  }

  const UPPER := "ABCDEFGHIJKLMNOPQRSTUVWXYZ"
  const LOWER := "abcdefghijklmnopqrstuvwxyz"
  const DIGITS := "0123456789"

  /** The characters of each alphabet in the order of their values. */
  function Characters(alphabet: Alphabet): (chars: string)
    ensures |chars| == 64
  {
    match alphabet
    case Standard => UPPER + LOWER + DIGITS + "+/"
    case UrlSafe => UPPER + LOWER + DIGITS + "-_"
    case Ordered => "-" + DIGITS + UPPER + "_" + LOWER
  }

  /** In the codes of the characters, letters of either case and digits stand in a row. */
  lemma Rows()
    ensures forall i :: 0 <= i < 26 ==> UPPER[i] as int == 65 + i && LOWER[i] as int == 97 + i
    ensures forall i :: 0 <= i < 10 ==> DIGITS[i] as int == 48 + i
  {
  }

  lemma CharIs(alphabet: Alphabet, i: nat)
    requires i < 64
    ensures Char(alphabet, i) == Characters(alphabet)[i] as int
  {
    hide UPPER, LOWER, DIGITS;
    assert |UPPER| == |LOWER| == 26 && |DIGITS| == 10 by { Sizes(); }
    Rows();
  }

  lemma Sizes()
    ensures |UPPER| == |LOWER| == 26 && |DIGITS| == 10
  {
  }

  /** The decoding table says nothing else of any byte: it holds the alphabet, four kinds of space, and `=`. */
  lemma DecodabetIs(alphabet: Alphabet, c: Byte)
    ensures Decodabet(alphabet, c).White? <==> c as char in "\t\n\r "
    ensures Decodabet(alphabet, c).Padding? <==> c as char == '='
    ensures forall i :: 0 <= i < 64 ==> (Decodabet(alphabet, c) == Value(i) <==> Characters(alphabet)[i] as int == c)
  {
    hide Characters, Char;
    forall i | 0 <= i < 64
      ensures Decodabet(alphabet, c) == Value(i) <==> Characters(alphabet)[i] as int == c
    {
      CharIs(alphabet, i);
      CharDecodes(alphabet, i);
      ValueIsChar(alphabet, c);
    }
  }

  lemma ValueIsChar(alphabet: Alphabet, c: Byte)
    ensures Decodabet(alphabet, c).Value? ==> Char(alphabet, Decodabet(alphabet, c).v) == c
  {
  }

  /** What the ordered alphabet is for: characters compare as their values do. */
  lemma OrderedAscends(i: nat, j: nat)
    requires i < j < 64
    ensures Char(Ordered, i) < Char(Ordered, j)
  {
  }

  // ---------------------------------------------------------------------------------------
  // Three bytes and four characters

  function InBuff(s: seq<Byte>): nat
    requires 1 <= |s| <= 3
  {
    s[0] as int * 0x1_0000 + (if |s| > 1 then s[1] as int * 0x100 else 0) + (if |s| > 2 then s[2] as int else 0)
  }

  /** Six of the buffer's 24 bits, by number from the left. */
  function Sextet(buff: nat, k: nat): (v: nat)
    ensures v < 64
  {
    (if k == 0 then buff / 0x4_0000 else if k == 1 then buff / 0x1000 else if k == 2 then buff / 64 else buff) % 64
  }

  /** Eight of the buffer's 24 bits, by number from the left. */
  function Octet(buff: nat, k: nat): Byte {
    (if k == 0 then buff / 0x1_0000 else if k == 1 then buff / 0x100 else buff) % 256
  }

  /** The characters of one to three bytes. */
  function Encode3(alphabet: Alphabet, s: seq<Byte>): (r: seq<Byte>)
    requires 1 <= |s| <= 3
    ensures |r| == 4
  {
    var buff := InBuff(s);
    [Char(alphabet, Sextet(buff, 0)), Char(alphabet, Sextet(buff, 1)),
     if |s| > 1 then Char(alphabet, Sextet(buff, 2)) else EQUALS_SIGN,
     if |s| > 2 then Char(alphabet, Sextet(buff, 3)) else EQUALS_SIGN]
  }

  /**
   The four values side by side. Six-bit values do not overlap, so that their sum is the or of the
   source; marks do.
   */
  function OutBuff(v0: Byte, v1: Byte, v2: Byte, v3: Byte): nat {
    if v0 < 64 && v1 < 64 && v2 < 64 && v3 < 64 then
      v0 as int * 0x4_0000 + v1 as int * 0x1000 + v2 as int * 64 + v3 as int
    else (((v0 as bv32) << 18) | ((v1 as bv32) << 12) | ((v2 as bv32) << 6) | (v3 as bv32)) as nat
  }

  /** The bytes of four characters: padding in the third or fourth place shortens them. */
  function Decode4(alphabet: Alphabet, s: seq<Byte>): (r: seq<Byte>)
    requires |s| == 4
    ensures 1 <= |r| <= 3
  {
    var v0, v1, v2, v3 := Entry(alphabet, s[0]), Entry(alphabet, s[1]), Entry(alphabet, s[2]), Entry(alphabet, s[3]);
    if s[2] == EQUALS_SIGN then [Octet(OutBuff(v0, v1, 0, 0), 0)]
    else if s[3] == EQUALS_SIGN then
      var buff := OutBuff(v0, v1, v2, 0);
      [Octet(buff, 0), Octet(buff, 1)]
    else
      var buff := OutBuff(v0, v1, v2, v3);
      [Octet(buff, 0), Octet(buff, 1), Octet(buff, 2)]
  }

  /** Four times six bits and three times eight bits are the same 24 bits. */
  lemma SextetsBack(buff: nat)
    requires buff < 0x100_0000
    ensures OutBuff(Sextet(buff, 0), Sextet(buff, 1), Sextet(buff, 2), Sextet(buff, 3)) == buff
  {
    assert buff / 0x1000 == buff / 0x4_0000 * 64 + Sextet(buff, 1) by { assert buff / 0x1000 / 64 == buff / 0x4_0000; }
    assert buff / 64 == buff / 0x1000 * 64 + Sextet(buff, 2) by { assert buff / 64 / 64 == buff / 0x1000; }
    assert buff == buff / 64 * 64 + Sextet(buff, 3);
  }

  lemma BuffBytes(s: seq<Byte>)
    requires 1 <= |s| <= 3
    ensures InBuff(s) < 0x100_0000
    ensures Octet(InBuff(s), 0) == s[0]
    ensures |s| > 1 ==> Octet(InBuff(s), 1) == s[1]
    ensures |s| > 2 ==> Octet(InBuff(s), 2) == s[2]
    ensures |s| < 3 ==> Sextet(InBuff(s), 3) == 0
    ensures |s| < 2 ==> Sextet(InBuff(s), 2) == 0
  {
    var a, b, c := s[0] as int, if |s| > 1 then s[1] as int else 0, if |s| > 2 then s[2] as int else 0;
    var buff := a * 0x1_0000 + b * 0x100 + c;
    assert buff / 0x100 == a * 0x100 + b && buff % 0x100 == c;
    assert buff / 0x1_0000 == a;
  }

  lemma Decode4Encode3(alphabet: Alphabet, s: seq<Byte>)
    requires 1 <= |s| <= 3
    ensures Decode4(alphabet, Encode3(alphabet, s)) == s
  {
    hide Char, Entry, Decodabet, InBuff, OutBuff, Sextet, Octet;
    var buff := InBuff(s);
    BuffBytes(s);
    SextetsBack(buff);
    CharDecodes(alphabet, Sextet(buff, 0));
    CharDecodes(alphabet, Sextet(buff, 1));
    CharDecodes(alphabet, Sextet(buff, 2));
    CharDecodes(alphabet, Sextet(buff, 3));
  }

  // ---------------------------------------------------------------------------------------
  // The encoder

  /** The text of `data` where `line` characters already stand on the line. */
  function Encoded(alphabet: Alphabet, breaks: bool, data: seq<Byte>, line: nat): seq<Byte> {
    if data == [] then []
    else if |data| < 3 then Encode3(alphabet, data)
    else if breaks && line + 4 >= MAX_LINE_LENGTH then
      Encode3(alphabet, data[..3]) + [NEW_LINE] + Encoded(alphabet, breaks, data[3..], 0)
    else Encode3(alphabet, data[..3]) + Encoded(alphabet, breaks, data[3..], line + 4)
  }

  /** The size computed before encoding. */
  function EncodedSize(length: nat, breaks: bool): nat {
    var encLen := length / 3 * 4 + if length % 3 > 0 then 4 else 0;
    if breaks then encLen + encLen / MAX_LINE_LENGTH else encLen
  }

  /** Newlines come after full lines of complete groups only. */
  lemma {:induction false} EncodedLength(alphabet: Alphabet, breaks: bool, data: seq<Byte>, line: nat)
    requires breaks ==> line < MAX_LINE_LENGTH && line % 4 == 0
    ensures |Encoded(alphabet, breaks, data, line)| ==
            |data| / 3 * 4 + (if |data| % 3 > 0 then 4 else 0)
            + if breaks then (line + |data| / 3 * 4) / MAX_LINE_LENGTH else 0
    decreases |data|
  {
    hide Encode3;
    if |data| >= 3 {
      assert |data[3..]| / 3 == |data| / 3 - 1 && |data[3..]| % 3 == |data| % 3;
      if breaks && line + 4 >= MAX_LINE_LENGTH {
        EncodedLength(alphabet, breaks, data[3..], 0);
      } else {
        EncodedLength(alphabet, breaks, data[3..], line + 4);
      }
    }
  }

  /** The text never exceeds the size computed for it. */
  lemma EncodedFits(alphabet: Alphabet, breaks: bool, data: seq<Byte>)
    ensures |Encoded(alphabet, breaks, data, 0)| <= EncodedSize(|data|, breaks)
  {
    EncodedLength(alphabet, breaks, data, 0);
  }

  /** Line breaks stand after every 76 characters of the text and nowhere else. */
  lemma {:induction false} BreaksAre(alphabet: Alphabet, breaks: bool, data: seq<Byte>, line: nat, k: nat)
    requires (breaks ==> line % 4 == 0 && line < 76) && k < |Encoded(alphabet, breaks, data, line)|
    ensures Encoded(alphabet, breaks, data, line)[k] == 10 <==> breaks && (line + k) % 77 == 76
    decreases |data|
  {
    hide Encode3, Encoded;
    EncodedStep(alphabet, breaks, data, line);
    QuartetUnbroken(alphabet, if |data| < 3 then data else data[..3]);
    if |data| >= 3 && k >= 4 {
      if !breaks || line < 72 {
        BreaksAre(alphabet, breaks, data[3..], line + 4, k - 4);
      } else if k > 4 {
        BreaksAre(alphabet, breaks, data[3..], 0, k - 5);
      }
    }
  }

  lemma QuartetUnbroken(alphabet: Alphabet, s: seq<Byte>)
    requires 1 <= |s| <= 3
    ensures forall k :: 0 <= k < 4 ==> Encode3(alphabet, s)[k] != 10
  {
    hide InBuff, Sextet;
  }

  /** Writes the characters of a group into the buffer. */
  method PutQuartet(destination: array<Byte>, at: nat, quartet: seq<Byte>)
    requires |quartet| == 4 && at + 4 <= destination.Length
    modifies destination
    ensures destination[..at + 4] == old(destination[..at]) + quartet
  {
    destination[at] := quartet[0];
    destination[at + 1] := quartet[1];
    destination[at + 2] := quartet[2];
    destination[at + 3] := quartet[3];
  }

  method EncodeBytesToBytes(alphabet: Alphabet, breakLines: bool, source: seq<Byte>) returns (text: seq<Byte>)
    ensures text == Encoded(alphabet, breakLines, source, 0)
  {
    hide Encode3, Encoded, EncodedSize;
    ghost var goal := Encoded(alphabet, breakLines, source, 0);
    var encLen := EncodedSize(|source|, breakLines);
    EncodedFits(alphabet, breakLines, source);
    var outBuff := new Byte[encLen];
    var d, e, lineLength := 0, 0, 0;
    assert source[0..] == source;
    while d < |source| - 2
      invariant d <= |source| && e <= encLen && (breakLines ==> lineLength < MAX_LINE_LENGTH)
      invariant outBuff[..e] + Encoded(alphabet, breakLines, source[d..], lineLength) == goal
    {
      EncodedStep(alphabet, breakLines, source[d..], lineLength);
      assert source[d..][..3] == source[d..d + 3] && source[d..][3..] == source[d + 3..];
      PutQuartet(outBuff, e, Encode3(alphabet, source[d..d + 3]));
      lineLength := lineLength + 4;
      if breakLines && lineLength >= MAX_LINE_LENGTH {
        outBuff[e + 4] := NEW_LINE;
        assert outBuff[..e + 5] == outBuff[..e + 4] + [NEW_LINE];
        e := e + 1;
        lineLength := 0;
      }
      d, e := d + 3, e + 4;
    }
    EncodedStep(alphabet, breakLines, source[d..], lineLength);
    if d < |source| {
      PutQuartet(outBuff, e, Encode3(alphabet, source[d..]));
      e := e + 4;
    }
    text := outBuff[..e];
  }

  lemma EncodedStep(alphabet: Alphabet, breaks: bool, data: seq<Byte>, line: nat)
    ensures data == [] ==> Encoded(alphabet, breaks, data, line) == []
    ensures 0 < |data| < 3 ==> Encoded(alphabet, breaks, data, line) == Encode3(alphabet, data)
    ensures |data| >= 3 ==>
      Encoded(alphabet, breaks, data, line) ==
        Encode3(alphabet, data[..3]) +
        (if breaks && line + 4 >= MAX_LINE_LENGTH then [NEW_LINE] + Encoded(alphabet, breaks, data[3..], 0)
         else Encoded(alphabet, breaks, data[3..], line + 4))
  {
    hide Encode3;
  }

  // ---------------------------------------------------------------------------------------
  // The decoder

  datatype Result = Ok(bytes: seq<Byte>) | BadCharacter | IllegalArgument

  /** Decoding the rest of a text with up to three characters collected. */
  function Decoded(alphabet: Alphabet, text: seq<Byte>, b4: seq<Byte>, out: seq<Byte>): Result
    requires |b4| < 4
    decreases |text|
  {
    if text == [] then Ok(out)
    else if Decodabet(alphabet, text[0]).Bad? then BadCharacter
    else if Decodabet(alphabet, text[0]).White? then Decoded(alphabet, text[1..], b4, out)
    else
      var four := b4 + [text[0]];
      if |four| < 4 then Decoded(alphabet, text[1..], four, out)
      else if text[0] == EQUALS_SIGN then Ok(out + Decode4(alphabet, four))
      else Decoded(alphabet, text[1..], [], out + Decode4(alphabet, four))
  }

  /**
   Decodes `length` bytes from `offset` on. The buffer, three quarters of the text, always has room
   for the three bytes that the source demands for each group.
   */
  method Decode(alphabet: Alphabet, source: seq<Byte>, offset: int, length: int) returns (r: Result)
    ensures offset < 0 || length < 0 || offset + length > |source| ==> r == IllegalArgument
    ensures offset >= 0 && length >= 0 && offset + length <= |source| ==>
      r == if length == 0 then Ok([]) else if length < 4 then IllegalArgument
           else Decoded(alphabet, source[offset..offset + length], [], [])
  {
    hide Decode4, Decodabet;
    if offset < 0 || length < 0 || offset + length > |source| { return IllegalArgument; }
    if length == 0 { return Ok([]); }
    if length < 4 { return IllegalArgument; }
    var len34 := length * 3 / 4;
    var outBuff := new Byte[len34];
    var outBuffPosn := 0;
    var b4: seq<Byte> := [];
    ghost var text := source[offset..offset + length];
    var i := offset;
    while i < offset + length
      invariant offset <= i <= offset + length && |b4| < 4
      invariant 0 <= outBuffPosn && 4 * outBuffPosn <= 3 * (i - offset - |b4|)
      invariant Decoded(alphabet, text[i - offset..], b4, outBuff[..outBuffPosn]) == Decoded(alphabet, text, [], [])
    {
      assert text[i - offset..][1..] == text[i + 1 - offset..];
      var code := Decodabet(alphabet, source[i]);
      if code.Bad? { return BadCharacter; }
      if !code.White? {
        b4 := b4 + [source[i]];
        if |b4| > 3 {
          outBuffPosn := PutDecoded(outBuff, outBuffPosn, Decode4(alphabet, b4));
          b4 := [];
          if source[i] == EQUALS_SIGN { break; }
        }
      }
      i := i + 1;
    }
    r := Ok(outBuff[..outBuffPosn]);
  }

  /** Writes the bytes of a group; the source insists on room for three. */
  method PutDecoded(destination: array<Byte>, at: nat, bytes: seq<Byte>) returns (next: nat)
    requires 1 <= |bytes| <= 3 && at + 2 < destination.Length
    modifies destination
    ensures next == at + |bytes| && destination[..next] == old(destination[..at]) + bytes
  {
    destination[at] := bytes[0];
    if |bytes| > 1 { destination[at + 1] := bytes[1]; }
    if |bytes| > 2 { destination[at + 2] := bytes[2]; }
    next := at + |bytes|;
  }

  /** White space anywhere in a text makes no difference. */
  lemma {:induction false} WhiteSpaceSkipped(alphabet: Alphabet, before: seq<Byte>, white: Byte, after: seq<Byte>,
      b4: seq<Byte>, out: seq<Byte>)
    requires |b4| < 4 && white as char in "\t\n\r "
    ensures Decoded(alphabet, before + [white] + after, b4, out) == Decoded(alphabet, before + after, b4, out)
    decreases |before|
  {
    hide Decode4;
    if before == [] {
      assert (before + [white] + after)[1..] == after == before + after;
    } else {
      var c, rest := before[0], before[1..];
      assert (before + [white] + after)[1..] == rest + [white] + after && (before + after)[1..] == rest + after;
      if Decodabet(alphabet, c).White? {
        WhiteSpaceSkipped(alphabet, rest, white, after, b4, out);
      } else if |b4| < 3 {
        WhiteSpaceSkipped(alphabet, rest, white, after, b4 + [c], out);
      } else {
        WhiteSpaceSkipped(alphabet, rest, white, after, [], out + Decode4(alphabet, b4 + [c]));
      }
    }
  }

  // ---------------------------------------------------------------------------------------
  // Round trip

  /** A group of characters is collected and decoded. */
  lemma DecodeQuartet(alphabet: Alphabet, s: seq<Byte>, rest: seq<Byte>, out: seq<Byte>)
    requires 1 <= |s| <= 3 && (|s| < 3 ==> rest == [])
    ensures Decoded(alphabet, Encode3(alphabet, s) + rest, [], out) ==
            if |s| < 3 then Ok(out + s) else Decoded(alphabet, rest, [], out + s)
  {
    hide Char, Decodabet, Decode4, Decoded, Sextet;
    var q, buff := Encode3(alphabet, s), InBuff(s);
    CharDecodes(alphabet, Sextet(buff, 0));
    CharDecodes(alphabet, Sextet(buff, 1));
    CharDecodes(alphabet, Sextet(buff, 2));
    CharDecodes(alphabet, Sextet(buff, 3));
    EqualsPads(alphabet);
    Decode4Encode3(alphabet, s);
    Collect(alphabet, q, rest, [], out);
    assert [] + q == q;
    DecodedNone(alphabet, out);
  }

  lemma DecodedNone(alphabet: Alphabet, out: seq<Byte>)
    ensures Decoded(alphabet, [], [], out) == Ok(out)
  {
  }

  lemma EqualsPads(alphabet: Alphabet)
    ensures Decodabet(alphabet, EQUALS_SIGN) == Padding && Decodabet(alphabet, NEW_LINE) == White
  {
  }

  /** Characters that are neither white nor bad are collected until there are four. */
  lemma {:induction false} Collect(alphabet: Alphabet, q: seq<Byte>, rest: seq<Byte>, b4: seq<Byte>, out: seq<Byte>)
    requires 0 < |q| == 4 - |b4|
    requires forall k :: 0 <= k < |q| ==> !Decodabet(alphabet, q[k]).Bad? && !Decodabet(alphabet, q[k]).White?
    ensures Decoded(alphabet, q + rest, b4, out) ==
            if q[|q| - 1] == EQUALS_SIGN then Ok(out + Decode4(alphabet, b4 + q))
            else Decoded(alphabet, rest, [], out + Decode4(alphabet, b4 + q))
    decreases |q|
  {
    hide Decodabet, Decode4;
    assert (q + rest)[1..] == q[1..] + rest;
    if |q| == 1 {
      assert q[1..] + rest == rest && b4 + [q[0]] == b4 + q;
    } else {
      Collect(alphabet, q[1..], rest, b4 + [q[0]], out);
      assert b4 + [q[0]] + q[1..] == b4 + q;
    }
  }

  /** Decoding an encoded text gives the bytes, in every alphabet, with line breaks or without. */
  lemma {:induction false} RoundTrip(alphabet: Alphabet, breaks: bool, data: seq<Byte>, line: nat, out: seq<Byte>)
    ensures Decoded(alphabet, Encoded(alphabet, breaks, data, line), [], out) == Ok(out + data)
    decreases |data|
  {
    hide Encode3, Decodabet, Decode4, Encoded;
    EncodedStep(alphabet, breaks, data, line);
    if data == [] {
      assert out + data == out;
    } else if |data| < 3 {
      DecodeQuartet(alphabet, data, [], out);
      assert Encode3(alphabet, data) + [] == Encode3(alphabet, data);
    } else {
      var first, more := data[..3], data[3..];
      var line' := if breaks && line + 4 >= MAX_LINE_LENGTH then 0 else line + 4;
      var rest := Encoded(alphabet, breaks, more, line');
      RoundTrip(alphabet, breaks, more, line', out + first);
      assert out + first + more == out + data;
      if breaks && line + 4 >= MAX_LINE_LENGTH {
        DecodeQuartet(alphabet, first, [NEW_LINE] + rest, out);
        EqualsPads(alphabet);
        assert ([NEW_LINE] + rest)[1..] == rest;
      } else {
        DecodeQuartet(alphabet, first, rest, out);
      }
    }
  }

  /** An encoded text is empty or long enough for the decoder to accept. */
  lemma TextLongEnough(alphabet: Alphabet, breaks: bool, data: seq<Byte>)
    ensures |Encoded(alphabet, breaks, data, 0)| == 0 <==> data == []
    ensures data != [] ==> |Encoded(alphabet, breaks, data, 0)| >= 4
  {
    hide Encode3;
  }

  /** The whole way: encoding and then decoding with the same alphabet. */
  method EncodeThenDecode(alphabet: Alphabet, breakLines: bool, data: seq<Byte>) returns (r: Result)
    ensures r == Ok(data)
  {
    hide Decoded, Encoded;
    var text := EncodeBytesToBytes(alphabet, breakLines, data);
    TextLongEnough(alphabet, breakLines, data);
    RoundTrip(alphabet, breakLines, data, 0, []);
    assert text[0..0 + |text|] == text && [] + data == data;
    r := Decode(alphabet, text, 0, |text|);
  }
}
