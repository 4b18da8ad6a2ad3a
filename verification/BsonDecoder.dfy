/**
 The BSON decoder: a cursor over a byte string, with every way in which it can fail, and the
 proof that it reads back what the encoder wrote.
 */
module BsonDecoder {
  import opened BsonValues
  import opened Octets

  /** `Corrupted` and `UnknownKind` come back as errors; `OutOfRange` is a run-time panic. */
  datatype Error = Corrupted | UnknownKind | OutOfRange

  /** What reading at a position gives: a value and the position after it. */
  datatype Parsed<T> = Parsed(value: T, next: nat) | Failed(error: Error)

  // ---------------------------------------------------------------------------------------
  // Reading, as functions of the input and the position

  function BytesAt(input: seq<Byte>, i: nat, length: int): (r: Parsed<seq<Byte>>)
    requires i <= |input|
    ensures r.Parsed? ==> i <= r.next <= |input| && |r.value| == length
  {
    if i + length > |input| then Failed(Corrupted)
    else if length < 0 then Failed(OutOfRange)
    else Parsed(input[i..i + length], i + length)
  }

  function ByteAt(input: seq<Byte>, i: nat): (r: Parsed<Byte>)
    requires i <= |input|
    ensures r.Parsed? ==> i < r.next <= |input|
  {
    if i == |input| then Failed(Corrupted) else Parsed(input[i], i + 1)
  }

  function Int32At(input: seq<Byte>, i: nat): (r: Parsed<Int64>)
    requires i <= |input|
    ensures r.Parsed? ==> i < r.next <= |input|
  {
    var b := BytesAt(input, i, 4);
    if b.Failed? then Failed(b.error) else Parsed(Signed32(FromBytes(b.value)), b.next)
  }

  function Int64At(input: seq<Byte>, i: nat): (r: Parsed<Int64>)
    requires i <= |input|
    ensures r.Parsed? ==> i < r.next <= |input|
  {
    var b := BytesAt(input, i, 8);
    if b.Failed? then Failed(b.error) else Parsed(Signed64(FromBytes(b.value)), b.next)
  }

  /** The first position from `i` on, before `end`, that holds a NUL; or `end`. */
  function NulFrom(input: seq<Byte>, i: nat, end: nat): (j: nat)
    requires i <= end <= |input|
    ensures i <= j <= end
    ensures NulFree(input[i..j])
    ensures j < end ==> input[j] == 0
    decreases end - i
  {
    if i == end || input[i] == 0 then i else
      var j := NulFrom(input, i + 1, end);
      assert input[i..j] == [input[i]] + input[i + 1..j];
      j
  }

  function CStrAt(input: seq<Byte>, i: nat): (r: Parsed<seq<Byte>>)
    requires i <= |input|
    ensures r.Parsed? ==> i < r.next <= |input|
  {
    var j := NulFrom(input, i, |input|);
    if j == |input| then Failed(Corrupted) else Parsed(input[i..j], j + 1)
  }

  function StrAt(input: seq<Byte>, i: nat): (r: Parsed<seq<Byte>>)
    requires i <= |input|
    ensures r.Parsed? ==> i < r.next <= |input|
  {
    var l := Int32At(input, i);
    if l.Failed? then Failed(l.error) else
    var b := BytesAt(input, l.next, Signed32(l.value - 1));
    if b.Failed? then Failed(b.error) else
    var z := ByteAt(input, b.next);
    if z.Failed? then Failed(z.error)
    else if z.value != 0 then Failed(Corrupted)
    else Parsed(b.value, z.next)
  }

  /** Binary data; the obsolete subtype repeats the length and reads as plain data. */
  function BinaryAt(input: seq<Byte>, i: nat): (r: Parsed<Value>)
    requires i <= |input|
    ensures r.Parsed? ==> i < r.next <= |input|
  {
    var l := Int32At(input, i);
    if l.Failed? then Failed(l.error) else
    var k := ByteAt(input, l.next);
    if k.Failed? then Failed(k.error) else
    var b := BytesAt(input, k.next, l.value);
    if b.Failed? then Failed(b.error)
    else if k.value != 2 then Parsed(Binary(k.value, b.value), b.next)
    else if |b.value| < 4 then Failed(OutOfRange)
    else Parsed(Binary(0, b.value[4..]), b.next)
  }

  function RegExAt(input: seq<Byte>, i: nat): (r: Parsed<Value>)
    requires i <= |input|
    ensures r.Parsed? ==> i < r.next <= |input|
  {
    var p := CStrAt(input, i);
    if p.Failed? then Failed(p.error) else
    var o := CStrAt(input, p.next);
    if o.Failed? then Failed(o.error) else Parsed(RegEx(p.value, o.value), o.next)
  }

  function Map<T, U>(p: Parsed<T>, f: T -> U): (r: Parsed<U>)
  {
    if p.Failed? then Failed(p.error) else Parsed(f(p.value), p.next)
  }

  /** The length of a document and the check of it: where the elements start and end. */
  function FrameAt(input: seq<Byte>, i: nat): (r: Parsed<nat>)
    requires i <= |input|
    ensures r.Parsed? ==> i < r.next < r.value <= |input| && input[r.value - 1] == 0
  {
    var l := Int32At(input, i);
    if l.Failed? then Failed(l.error) else
    var end := l.next - 4 + l.value;
    if end <= l.next || end > |input| || input[end - 1] != 0 then Failed(Corrupted)
    else Parsed(end, l.next)
  }

  function ValueAt(input: seq<Byte>, i: nat, kind: Byte): (r: Parsed<Value>)
    requires i <= |input|
    ensures r.Parsed? ==> i <= r.next <= |input|
    decreases |input| - i, 2
  {
    match kind
    case 0x01 => Map(Int64At(input, i), b => Double(b))
    case 0x02 => Map(StrAt(input, i), s => Str(s))
    case 0x03 =>
      Map(DocAt(input, i), e => Doc(e))
    case 0x04 =>
      Map(ArrAt(input, i), e => Arr(e))
    case 0x05 => BinaryAt(input, i)
    case 0x06 => Parsed(Undefined, i)
    case 0x07 => Map(BytesAt(input, i, 12), b => ObjectId(b))
    case 0x08 => Map(ByteAt(input, i), b => Bool(b == 1))
    case 0x09 => Map(Int64At(input, i), b => Time(b))
    case 0x0A => Parsed(Null, i)
    case 0x0B => RegExAt(input, i)
    case 0x0D => Map(StrAt(input, i), s => JavaScript(s))
    case 0x0E => Map(StrAt(input, i), s => Symbol(s))
    case 0x10 => Map(Int32At(input, i), v => Int(v))
    case 0x11 => Map(Int64At(input, i), b => Timestamp(b))
    case 0x12 => Map(Int64At(input, i), b => Long(b))
    case 0x7F => Parsed(MaxKey, i)
    case 0xFF => Parsed(MinKey, i)
    case _ => Failed(UnknownKind)
  }

  function DocAt(input: seq<Byte>, i: nat): (r: Parsed<seq<DocElem>>)
    requires i <= |input|
    ensures r.Parsed? ==> i <= r.next <= |input|
    decreases |input| - i, 1
  {
    var f := FrameAt(input, i);
    if f.Failed? then Failed(f.error) else ElemsAt(input, f.next, f.value, [])
  }

  function ArrAt(input: seq<Byte>, i: nat): (r: Parsed<seq<Value>>)
    requires i <= |input|
    ensures r.Parsed? ==> i <= r.next <= |input|
    decreases |input| - i, 1
  {
    var f := FrameAt(input, i);
    if f.Failed? then Failed(f.error) else ItemsAt(input, f.next, f.value, [])
  }

  /** The elements of a document up to its end, after those already read. */
  function ElemsAt(input: seq<Byte>, i: nat, end: nat, read: seq<DocElem>): (r: Parsed<seq<DocElem>>)
    requires i < end <= |input|
    ensures r.Parsed? ==> r.next == end
    decreases |input| - i, 0
  {
    if input[i] == 0 then
      if i + 1 != end then Failed(Corrupted) else Parsed(read, end)
    else
      var name := CStrAt(input, i + 1);
      if name.Failed? then Failed(name.error)
      else if name.next >= end then Failed(Corrupted)
      else
        var v := ValueAt(input, name.next, input[i]);
        if v.Failed? then Failed(v.error)
        else if v.next >= end then Failed(Corrupted)
        else ElemsAt(input, v.next, end, read + [DocElem(name.value, v.value)])
  }

  /** The items of an array up to its end; names are skipped unread. */
  function ItemsAt(input: seq<Byte>, i: nat, end: nat, read: seq<Value>): (r: Parsed<seq<Value>>)
    requires i < end <= |input|
    ensures r.Parsed? ==> r.next == end
    decreases |input| - i, 0
  {
    if input[i] == 0 then
      if i + 1 != end then Failed(Corrupted) else Parsed(read, end)
    else
      var j := NulFrom(input, i + 1, end);
      if j >= end then Failed(Corrupted)
      else
        var v := ValueAt(input, j + 1, input[i]);
        if v.Failed? then Failed(v.error)
        else if v.next >= end then Failed(Corrupted)
        else ItemsAt(input, v.next, end, read + [v.value])
  }

  // ---------------------------------------------------------------------------------------
  // Decoding what was encoded

  /** `s` stands in `input` at position `i`. */
  ghost predicate StandsAt(input: seq<Byte>, i: nat, s: seq<Byte>) {
    i + |s| <= |input| && input[i..i + |s|] == s
  }

  lemma SplitAt(input: seq<Byte>, i: nat, s: seq<Byte>, t: seq<Byte>)
    requires StandsAt(input, i, s + t)
    ensures StandsAt(input, i, s) && StandsAt(input, i + |s|, t)
  {
    assert input[i..i + |s|] == input[i..i + |s + t|][..|s|];
    assert input[i + |s|..i + |s| + |t|] == input[i..i + |s + t|][|s|..];
  }

  lemma SplitAt3(input: seq<Byte>, i: nat, s: seq<Byte>, t: seq<Byte>, u: seq<Byte>)
    requires StandsAt(input, i, s + t + u)
    ensures StandsAt(input, i, s) && StandsAt(input, i + |s|, t) && StandsAt(input, i + |s| + |t|, u)
  {
    SplitAt(input, i, s + t, u);
    SplitAt(input, i, s, t);
  }

  lemma BytesBack(input: seq<Byte>, i: nat, s: seq<Byte>)
    requires StandsAt(input, i, s)
    ensures i <= |input| && BytesAt(input, i, |s|) == Parsed(s, i + |s|)
  {
  }

  lemma ByteBack(input: seq<Byte>, i: nat, b: Byte)
    requires StandsAt(input, i, [b])
    ensures i < |input| && input[i] == b && ByteAt(input, i) == Parsed(b, i + 1)
  {
    assert input[i] == input[i..i + 1][0];
  }

  lemma Int32Back(input: seq<Byte>, i: nat, v: int)
    requires StandsAt(input, i, Int32Bytes(v))
    ensures i <= |input| && Int32At(input, i) == Parsed(Signed32(v), i + 4)
  {
    BytesBack(input, i, Int32Bytes(v));
    Int32RoundTrip(v);
  }

  lemma Int64Back(input: seq<Byte>, i: nat, v: Int64)
    requires StandsAt(input, i, Int64Bytes(v))
    ensures i <= |input| && Int64At(input, i) == Parsed(v, i + 8)
  {
    BytesBack(input, i, Int64Bytes(v));
    Int64RoundTrip(v);
  }

  lemma {:induction false} NulFound(input: seq<Byte>, i: nat, end: nat, s: seq<Byte>)
    requires StandsAt(input, i, CStr(s)) && NulFree(s) && i + |s| < end <= |input|
    ensures NulFrom(input, i, end) == i + |s|
    decreases |s|
  {
    SplitAt(input, i, s, [0]);
    ByteBack(input, i + |s|, 0);
    if s != [] {
      assert input[i] == input[i..i + |s|][0] == s[0];
      assert StandsAt(input, i + 1, CStr(s[1..])) by {
        assert input[i + 1..i + |s| + 1] == input[i..i + |s| + 1][1..] == s[1..] + [0];
      }
      NulFound(input, i + 1, end, s[1..]);
    }
  }

  lemma CStrBack(input: seq<Byte>, i: nat, s: seq<Byte>)
    requires StandsAt(input, i, CStr(s)) && NulFree(s)
    ensures i <= |input| && CStrAt(input, i) == Parsed(s, i + |s| + 1)
  {
    NulFound(input, i, |input|, s);
    SplitAt(input, i, s, [0]);
  }

  lemma SmallSigned(n: nat)
    requires n < TWO_31
    ensures Signed32(n) == n && Signed32(Signed32(n + 1) - 1) == n
  {
  }

  lemma StrBack(input: seq<Byte>, i: nat, s: seq<Byte>)
    requires StandsAt(input, i, StrBytes(s)) && |s| < TWO_31
    ensures i <= |input| && StrAt(input, i) == Parsed(s, i + |StrBytes(s)|)
  {
    hide Int32Bytes, Int32At, BytesAt, ByteAt, Signed32;
    assert StrBytes(s) == Int32Bytes(|s| + 1) + s + [0];
    SplitAt3(input, i, Int32Bytes(|s| + 1), s, [0]);
    Int32Back(input, i, |s| + 1);
    SmallSigned(|s|);
    BytesBack(input, i + 4, s);
    ByteBack(input, i + 4 + |s|, 0);
  }

  lemma BinaryBack(input: seq<Byte>, i: nat, subtype: Byte, data: seq<Byte>)
    requires StandsAt(input, i, BinaryBytes(subtype, data)) && |BinaryBytes(subtype, data)| < TWO_31
    ensures i <= |input|
    ensures BinaryAt(input, i) ==
            Parsed(Binary(if subtype == 2 then 0 else subtype, data), i + |BinaryBytes(subtype, data)|)
  {
    hide Int32Bytes, Int32At, BytesAt, ByteAt, Signed32;
    if subtype == 2 {
      var l, inner := Int32Bytes(|data| + 4), Int32Bytes(|data|) + data;
      assert BinaryBytes(subtype, data) == l + [subtype] + inner;
      SplitAt3(input, i, l, [subtype], inner);
      Int32Back(input, i, |data| + 4);
      SmallSigned(|data| + 4);
      ByteBack(input, i + 4, subtype);
      BytesBack(input, i + 5, inner);
      assert inner[4..] == data;
    } else {
      SplitAt3(input, i, Int32Bytes(|data|), [subtype], data);
      Int32Back(input, i, |data|);
      SmallSigned(|data|);
      ByteBack(input, i + 4, subtype);
      BytesBack(input, i + 5, data);
    }
  }

  lemma RegExBack(input: seq<Byte>, i: nat, p: seq<Byte>, o: seq<Byte>)
    requires StandsAt(input, i, CStr(p) + CStr(o)) && NulFree(p) && NulFree(o)
    ensures i <= |input| && RegExAt(input, i) == Parsed(RegEx(p, o), i + |p| + 1 + |o| + 1)
  {
    hide CStrAt, NulFree;
    SplitAt(input, i, CStr(p), CStr(o));
    CStrBack(input, i, p);
    CStrBack(input, i + |p| + 1, o);
  }

  lemma FrameBack(input: seq<Byte>, i: nat, body: seq<Byte>)
    requires StandsAt(input, i, Framed(body)) && |Framed(body)| < TWO_31
    ensures i <= |input| && FrameAt(input, i) == Parsed(i + |Framed(body)|, i + 4)
    ensures StandsAt(input, i + 4, body) && input[i + 4 + |body|] == 0
  {
    hide Int32Bytes, Int32At, Signed32;
    SplitAt3(input, i, Int32Bytes(|body| + 5), body, [0]);
    Int32Back(input, i, |body| + 5);
    SmallSigned(|body| + 5);
    ByteBack(input, i + 4 + |body|, 0);
  }

  // The front element of a list is read first, but the encoder's list grows at the back.

  lemma {:induction false} ElemsFront(elems: seq<DocElem>)
    requires elems != []
    ensures ElemsBytes(elems) == ElemBytes(elems[0].name, elems[0].value) + ElemsBytes(elems[1..])
  {
    hide ElemBytes, ElemsBytes;
    var n := |elems| - 1;
    ElemsLast(elems);
    if n == 0 {
      assert elems[..0] == [] && elems[1..] == [];
      ElemsNone();
    } else {
      var first, last := ElemBytes(elems[0].name, elems[0].value), ElemBytes(elems[n].name, elems[n].value);
      ElemsFront(elems[..n]);
      ElemsLast(elems[1..]);
      assert elems[..n][1..] == elems[1..][..n - 1];
      assert first + ElemsBytes(elems[1..][..n - 1]) + last == first + (ElemsBytes(elems[1..][..n - 1]) + last);
    }
  }

  lemma ElemsLast(elems: seq<DocElem>)
    requires elems != []
    ensures ElemsBytes(elems) ==
            ElemsBytes(elems[..|elems| - 1]) + ElemBytes(elems[|elems| - 1].name, elems[|elems| - 1].value)
  {
    hide ElemBytes;
  }

  /** The items from number `from` on. */
  function ItemsFrom(items: seq<Value>, from: nat): seq<Byte>
    requires from <= |items|
    decreases |items| - from
  {
    if from == |items| then [] else ElemBytes(Itoa(from), items[from]) + ItemsFrom(items, from + 1)
  }

  lemma {:induction false} ItemsSplit(items: seq<Value>, from: nat)
    requires from <= |items|
    ensures ItemsBytes(items) == ItemsBytes(items[..from]) + ItemsFrom(items, from)
    decreases |items| - from
  {
    hide ElemBytes, Itoa;
    if from == |items| {
      assert items[..from] == items;
    } else {
      ItemsSplit(items, from + 1);
      var longer := items[..from + 1];
      assert longer[..from] == items[..from];
      assert ItemsBytes(longer) == ItemsBytes(items[..from]) + ElemBytes(Itoa(from), items[from]);
    }
  }

  lemma ItemsFront(items: seq<Value>)
    ensures ItemsBytes(items) == ItemsFrom(items, 0)
  {
    ItemsSplit(items, 0);
    assert items[..0] == [];
  }

  function DecodedElems(elems: seq<DocElem>): (r: seq<DocElem>)
    ensures |r| == |elems|
  {
    Decoded(Doc(elems)).elems
  }

  function DecodedItems(items: seq<Value>): (r: seq<Value>)
    ensures |r| == |items|
  {
    Decoded(Arr(items)).items
  }

  ghost predicate Sound(v: Value) { WellFormed(v) && Named(v) }

  /** Reading at the bytes of a value gives the value and stops right after them. */
  lemma {:induction false} ValueBack(input: seq<Byte>, i: nat, v: Value)
    requires StandsAt(input, i, ValueBytes(v)) && Sound(v) && |ValueBytes(v)| < TWO_31
    ensures i <= |input| && ValueAt(input, i, Kind(v)) == Parsed(Decoded(v), i + |ValueBytes(v)|)
    decreases v, 3
  {
    if v.Doc? {
      DocBack(input, i, v.elems);
    } else if v.Arr? {
      ArrBack(input, i, v.items);
    } else {
      ScalarBack(input, i, v);
    }
  }

  lemma {:induction false} DocBack(input: seq<Byte>, i: nat, elems: seq<DocElem>)
    requires var v := Doc(elems); StandsAt(input, i, ValueBytes(v)) && Sound(v) && |ValueBytes(v)| < TWO_31
    ensures i <= |input| && ValueAt(input, i, 0x03) == Parsed(Decoded(Doc(elems)), i + |ValueBytes(Doc(elems))|)
    decreases Doc(elems), 2
  {
    hide FrameAt, ElemsAt, ElemsBytes, NulFree, Decoded, Framed, StandsAt;
    var body := ElemsBytes(elems);
    FrameBack(input, i, body);
    SoundElems(elems);
    ElemsBack(input, i + 4, i + |Framed(body)|, [], elems);
    assert [] + DecodedElems(elems) == DecodedElems(elems);
    DecodedDoc(elems);
  }

  lemma {:induction false} ArrBack(input: seq<Byte>, i: nat, items: seq<Value>)
    requires var v := Arr(items); StandsAt(input, i, ValueBytes(v)) && Sound(v) && |ValueBytes(v)| < TWO_31
    ensures i <= |input| && ValueAt(input, i, 0x04) == Parsed(Decoded(Arr(items)), i + |ValueBytes(Arr(items))|)
    decreases Arr(items), 2
  {
    hide FrameAt, ItemsAt, ItemsBytes, ItemsFrom, Decoded, Framed, StandsAt;
    var body := ItemsBytes(items);
    FrameBack(input, i, body);
    ItemsFront(items);
    SoundItems(items);
    ItemsBack(input, i + 4, i + |Framed(body)|, [], items, 0);
    assert [] + DecodedItems(items)[0..] == DecodedItems(items);
    DecodedArr(items);
  }

  lemma SoundElems(elems: seq<DocElem>)
    requires Sound(Doc(elems))
    ensures forall k :: 0 <= k < |elems| ==> NulFree(elems[k].name) && Sound(elems[k].value)
  {
  }

  lemma SoundItems(items: seq<Value>)
    requires Sound(Arr(items))
    ensures forall k :: 0 <= k < |items| ==> Sound(items[k])
  {
  }

  lemma DecodedDoc(elems: seq<DocElem>)
    ensures Decoded(Doc(elems)) == Doc(DecodedElems(elems))
  {
  }

  lemma DecodedArr(items: seq<Value>)
    ensures Decoded(Arr(items)) == Arr(DecodedItems(items))
  {
  }

  lemma ScalarBack(input: seq<Byte>, i: nat, v: Value)
    requires StandsAt(input, i, ValueBytes(v)) && Sound(v) && |ValueBytes(v)| < TWO_31
    requires !v.Doc? && !v.Arr?
    ensures i <= |input| && ValueAt(input, i, Kind(v)) == Parsed(Decoded(v), i + |ValueBytes(v)|)
  {
    hide Int32Bytes, Int32At, Int64Bytes, Int64At, StrAt, StrBytes, BinaryAt, BinaryBytes, BytesAt, ByteAt, Signed32,
      RegExAt, CStr, NulFree;
    match v
    case Double(b) => Int64Back(input, i, b);
    case Str(s) => StrSmaller(s); StrBack(input, i, s);
    case Binary(subtype, data) => BinaryBack(input, i, subtype, data);
    case ObjectId(id) => BytesBack(input, i, id);
    case Bool(b) => ByteBack(input, i, if b then 1 else 0);
    case Time(b) => Int64Back(input, i, b);
    case RegEx(p, o) => CStrLength(p); CStrLength(o); RegExBack(input, i, p, o);
    case JavaScript(s) => StrSmaller(s); StrBack(input, i, s);
    case Symbol(s) => StrSmaller(s); StrBack(input, i, s);
    case Int(n) => Int32Back(input, i, n);
    case Timestamp(b) => Int64Back(input, i, b);
    case Long(b) => Int64Back(input, i, b);
    case _ =>
  }

  lemma CStrLength(s: seq<Byte>)
    ensures |CStr(s)| == |s| + 1
  {
  }

  lemma StrSmaller(s: seq<Byte>)
    ensures |s| < |StrBytes(s)|
  {
  }

  lemma ElemSplit(input: seq<Byte>, i: nat, name: seq<Byte>, v: Value)
    requires StandsAt(input, i, ElemBytes(name, v))
    ensures i < |input| && input[i] == Kind(v) && Kind(v) != 0
    ensures StandsAt(input, i + 1, CStr(name))
    ensures StandsAt(input, i + 1 + |name| + 1, ValueBytes(v))
  {
    hide ValueBytes;
    SplitAt3(input, i, [Kind(v)], CStr(name), ValueBytes(v));
    ByteBack(input, i, Kind(v));
  }

  lemma {:induction false} ElemsBack(input: seq<Byte>, i: nat, end: nat, read: seq<DocElem>, elems: seq<DocElem>)
    requires StandsAt(input, i, ElemsBytes(elems)) && |ElemsBytes(elems)| < TWO_31
    requires i + |ElemsBytes(elems)| + 1 == end <= |input| && input[end - 1] == 0
    requires forall k :: 0 <= k < |elems| ==> NulFree(elems[k].name) && Sound(elems[k].value)
    ensures ElemsAt(input, i, end, read) == Parsed(read + DecodedElems(elems), end)
    decreases elems, 1
  {
    hide ValueBytes, ValueAt, CStrAt, NulFrom, NulFree, Sound, ElemsBytes, ElemBytes, Decoded, DecodedElems, Kind,
      StandsAt;
    if elems == [] {
      ElemsNone();
      assert DecodedElems(elems) == [];
      assert read + DecodedElems(elems) == read;
    } else {
      var name, v, rest := elems[0].name, elems[0].value, elems[1..];
      ElemsFront(elems);
      SplitAt(input, i, ElemBytes(name, v), ElemsBytes(rest));
      ElemLength(name, v);
      ElemSplit(input, i, name, v);
      CStrBack(input, i + 1, name);
      ValueBack(input, i + |name| + 2, v);
      var more := read + [DocElem(name, Decoded(v))];
      ElemsBack(input, i + |ElemBytes(name, v)|, end, more, rest);
      DecodedFront(elems);
      assert more + DecodedElems(rest) == read + DecodedElems(elems);
    }
  }

  lemma ElemsNone()
    ensures ElemsBytes([]) == [] && ItemsBytes([]) == []
  {
  }

  lemma DecodedFront(elems: seq<DocElem>)
    requires elems != []
    ensures DecodedElems(elems) == [DocElem(elems[0].name, Decoded(elems[0].value))] + DecodedElems(elems[1..])
  {
  }

  lemma {:induction false} ItemsBack(input: seq<Byte>, i: nat, end: nat, read: seq<Value>, items: seq<Value>, from: nat)
    requires from <= |items| && StandsAt(input, i, ItemsFrom(items, from)) && |ItemsFrom(items, from)| < TWO_31
    requires i + |ItemsFrom(items, from)| + 1 == end <= |input| && input[end - 1] == 0
    requires forall k :: 0 <= k < |items| ==> Sound(items[k])
    ensures ItemsAt(input, i, end, read) == Parsed(read + DecodedItems(items)[from..], end)
    decreases items, 1, |items| - from
  {
    hide ValueBytes, ValueAt, CStrAt, NulFrom, NulFree, Sound, Decoded, DecodedItems, Itoa, Kind, StandsAt,
      ElemBytes, ItemsFrom;
    ItemsFromStep(items, from);
    if from == |items| {
      assert read + DecodedItems(items)[from..] == read;
    } else {
      var name, v := Itoa(from), items[from];
      SplitAt(input, i, ElemBytes(name, v), ItemsFrom(items, from + 1));
      ElemLength(name, v);
      ElemSplit(input, i, name, v);
      ItoaNulFree(from);
      NulFound(input, i + 1, end, name);
      ValueBack(input, i + |name| + 2, v);
      var more := read + [Decoded(v)];
      ItemsBack(input, i + |ElemBytes(name, v)|, end, more, items, from + 1);
      DecodedItem(items, from);
      assert more + DecodedItems(items)[from + 1..] == read + DecodedItems(items)[from..];
    }
  }

  lemma ItemsFromStep(items: seq<Value>, from: nat)
    requires from <= |items|
    ensures ItemsFrom(items, from) ==
            if from == |items| then [] else ElemBytes(Itoa(from), items[from]) + ItemsFrom(items, from + 1)
  {
    hide ElemBytes, Itoa;
  }

  lemma ElemLength(name: seq<Byte>, v: Value)
    ensures |ElemBytes(name, v)| == |name| + 2 + |ValueBytes(v)|
  {
    hide ValueBytes;
  }

  lemma ItoaNulFree(n: nat)
    ensures NulFree(Itoa(n))
  {
  }

  lemma DecodedItem(items: seq<Value>, k: nat)
    requires k < |items|
    ensures DecodedItems(items)[k] == Decoded(items[k])
  {
  }

  /**
   Decoding a document where it was encoded, whatever stands around it, gives the document up to
   what the format loses, and consumes exactly the bytes written.
   */
  lemma DecodeEncoded(before: seq<Byte>, elems: seq<DocElem>, after: seq<Byte>)
    requires Sound(Doc(elems)) && |ValueBytes(Doc(elems))| < TWO_31
    ensures
      var bytes := ValueBytes(Doc(elems));
      DocAt(before + bytes + after, |before|) == Parsed(DecodedElems(elems), |before + bytes|)
  {
    hide ValueBytes, Decoded, Sound, DocAt;
    var bytes := ValueBytes(Doc(elems));
    var input := before + bytes + after;
    assert input[|before|..|before| + |bytes|] == bytes;
    DocBack(input, |before|, elems);
  }

  /** The very document comes back exactly when it holds nothing the format loses. */
  lemma RoundTrip(elems: seq<DocElem>)
    requires Sound(Doc(elems)) && |ValueBytes(Doc(elems))| < TWO_31
    ensures
      var bytes := ValueBytes(Doc(elems));
      DocAt(bytes, 0) == Parsed(elems, |bytes|) <==> Lossless(Doc(elems))
  {
    hide ValueBytes, Decoded, Sound, DocAt, Lossless;
    var bytes := ValueBytes(Doc(elems));
    DecodeEncoded([], elems, []);
    assert [] + bytes + [] == bytes && |[] + bytes| == |bytes|;
    DecodedIsSame(Doc(elems));
    DecodedDoc(elems);
  }
}
