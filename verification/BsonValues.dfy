/**
 Ordered BSON documents, the bytes the encoder gives them, and what decoding those bytes can
 give back.
 */
module BsonValues {
  import opened Octets

  const TWO_31 := 0x8000_0000
  const TWO_32 := 0x1_0000_0000
  const TWO_63 := 0x8000_0000_0000_0000
  const TWO_64 := 0x1_0000_0000_0000_0000

  type Int64 = x: int | -0x8000_0000_0000_0000 <= x < 0x8000_0000_0000_0000

  /**
   `Int` is the source's machine-sized integer. Floating-point numbers are their 64 bits, and
   times their milliseconds.
   */
  datatype Value =
    | Double(bits: Int64)
    | Str(text: seq<Byte>)
    | Doc(elems: seq<DocElem>)
    | Arr(items: seq<Value>)
    | Binary(subtype: Byte, data: seq<Byte>)
    | Undefined
    | ObjectId(id: seq<Byte>)
    | Bool(b: bool)
    | Time(millis: Int64)
    | Null
    | RegEx(pattern: seq<Byte>, options: seq<Byte>)
    | JavaScript(code: seq<Byte>)
    | Symbol(symbol: seq<Byte>)
    | Int(i: Int64)
    | Timestamp(stamp: Int64)
    | Long(l: Int64)
    | MaxKey
    | MinKey

  datatype DocElem = DocElem(name: seq<Byte>, value: Value)

  function Kind(v: Value): Byte {
    match v
    case Double(_) => 0x01
    case Str(_) => 0x02
    case Doc(_) => 0x03
    case Arr(_) => 0x04
    case Binary(_, _) => 0x05
    case Undefined => 0x06
    case ObjectId(_) => 0x07
    case Bool(_) => 0x08
    case Time(_) => 0x09
    case Null => 0x0A
    case RegEx(_, _) => 0x0B
    case JavaScript(_) => 0x0D
    case Symbol(_) => 0x0E
    case Int(_) => 0x10
    case Timestamp(_) => 0x11
    case Long(_) => 0x12
    case MaxKey => 0x7F
    case MinKey => 0xFF
  }

  // ---------------------------------------------------------------------------------------
  // Integers

  function Pow256(k: nat): (p: nat)
    ensures p > 0
  {
    if k == 0 then 1 else 256 * Pow256(k - 1)
  }

  /** The lowest k bytes of `n`, lowest first. */
  function Bytes(n: nat, k: nat): (s: seq<Byte>)
    ensures |s| == k
  {
    if k == 0 then [] else [n % 256] + Bytes(n / 256, k - 1)
  }

  function FromBytes(s: seq<Byte>): (n: nat)
  {
    if s == [] then 0 else s[0] + 256 * FromBytes(s[1..])
  }

  function Int32Bytes(v: int): (s: seq<Byte>)
    ensures |s| == 4
  {
    Bytes(v % TWO_32, 4)
  }

  function Int64Bytes(v: int): (s: seq<Byte>)
    ensures |s| == 8
  {
    Bytes(v % TWO_64, 8)
  }

  /** The value of an int32 conversion. */
  function Signed32(n: int): Int64 {
    var u := n % TWO_32;
    if u < TWO_31 then u else u - TWO_32
  }

  function Signed64(n: int): Int64 {
    var u := n % TWO_64;
    if u < TWO_63 then u else u - TWO_64
  }

  lemma {:induction false} BytesRoundTrip(n: nat, k: nat)
    requires n < Pow256(k)
    ensures FromBytes(Bytes(n, k)) == n
  {
    if k > 0 {
      BytesRoundTrip(n / 256, k - 1);
      assert Bytes(n, k)[1..] == Bytes(n / 256, k - 1);
    }
  }

  lemma PowersOf256()
    ensures Pow256(4) == TWO_32 && Pow256(8) == TWO_64
  {
    assert Pow256(2) == 65536;
    assert Pow256(4) == 65536 * Pow256(2);
    assert Pow256(6) == 65536 * Pow256(4);
    assert Pow256(8) == 65536 * Pow256(6);
  }

  lemma Int32RoundTrip(v: int)
    ensures Signed32(FromBytes(Int32Bytes(v))) == Signed32(v)
    ensures -TWO_31 <= v < TWO_31 ==> Signed32(v) == v
  {
    hide Bytes, FromBytes, Pow256;
    PowersOf256();
    BytesRoundTrip(v % TWO_32, 4);
  }

  lemma Int64RoundTrip(v: Int64)
    ensures Signed64(FromBytes(Int64Bytes(v))) == v
  {
    hide Bytes, FromBytes, Pow256, Signed64;
    PowersOf256();
    BytesRoundTrip(v % TWO_64, 8);
    Signed64Residue(v);
  }

  lemma Signed64Residue(v: Int64)
    ensures Signed64(v % TWO_64) == v
  {
    if v < 0 { assert v % TWO_64 == v + TWO_64; }
  }

  // ---------------------------------------------------------------------------------------
  // Encoding

  function CStr(s: seq<Byte>): (r: seq<Byte>) { s + [0] }

  function StrBytes(s: seq<Byte>): seq<Byte> { Int32Bytes(|s| + 1) + CStr(s) }

  /** A document around its elements: the length of the whole, the elements, a NUL. */
  function Framed(body: seq<Byte>): (s: seq<Byte>)
    ensures |s| == |body| + 5
  {
    Int32Bytes(|body| + 5) + body + [0]
  }

  function BinaryBytes(subtype: Byte, data: seq<Byte>): seq<Byte> {
    if subtype == 2 then Int32Bytes(|data| + 4) + [subtype] + Int32Bytes(|data|) + data
    else Int32Bytes(|data|) + [subtype] + data
  }

  function ValueBytes(v: Value): seq<Byte>
    decreases v, 0
  {
    match v
    case Double(bits) => Int64Bytes(bits)
    case Str(s) => StrBytes(s)
    case Doc(elems) => Framed(ElemsBytes(elems))
    case Arr(items) => Framed(ItemsBytes(items))
    case Binary(subtype, data) => BinaryBytes(subtype, data)
    case Undefined => []
    case ObjectId(id) => id
    case Bool(b) => [if b then 1 else 0]
    case Time(millis) => Int64Bytes(millis)
    case Null => []
    case RegEx(pattern, options) => CStr(pattern) + CStr(options)
    case JavaScript(code) => StrBytes(code)
    case Symbol(s) => StrBytes(s)
    case Int(i) => Int32Bytes(i)
    case Timestamp(t) => Int64Bytes(t)
    case Long(l) => Int64Bytes(l)
    case MaxKey => []
    case MinKey => []
  }

  function ElemBytes(name: seq<Byte>, v: Value): seq<Byte>
    decreases v, 1
  {
    [Kind(v)] + CStr(name) + ValueBytes(v)
  }

  function ElemsBytes(elems: seq<DocElem>): seq<Byte>
    decreases elems
  {
    if elems == [] then []
    else
      var last := elems[|elems| - 1];
      ElemsBytes(elems[..|elems| - 1]) + ElemBytes(last.name, last.value)
  }

  function ItemsBytes(items: seq<Value>): seq<Byte>
    decreases items
  {
    if items == [] then []
    else ItemsBytes(items[..|items| - 1]) + ElemBytes(Itoa(|items| - 1), items[|items| - 1])
  }

  // ---------------------------------------------------------------------------------------
  // What survives

  predicate NulFree(s: seq<Byte>) { forall k :: 0 <= k < |s| ==> s[k] != 0 }

  /** Every object id has its twelve bytes; the encoder refuses others. */
  predicate WellFormed(v: Value)
    decreases v
  {
    match v
    case ObjectId(id) => |id| == 12
    case Doc(elems) => forall k :: 0 <= k < |elems| ==> WellFormed(elems[k].value)
    case Arr(items) => forall k :: 0 <= k < |items| ==> WellFormed(items[k])
    case _ => true
  }

  /** No name and no regular expression holds a NUL. */
  predicate Named(v: Value)
    decreases v
  {
    match v
    case Doc(elems) => forall k :: 0 <= k < |elems| ==> NulFree(elems[k].name) && Named(elems[k].value)
    case Arr(items) => forall k :: 0 <= k < |items| ==> Named(items[k])
    case RegEx(pattern, options) => NulFree(pattern) && NulFree(options)
    case _ => true
  }

  /**
   The value decoded: machine integers keep their lowest 32 bits, and obsolete binary data
   becomes plain binary data.
   */
  function Decoded(v: Value): Value
    decreases v
  {
    match v
    case Int(i) => Int(Signed32(i))
    case Binary(subtype, data) => if subtype == 2 then Binary(0, data) else v
    case Doc(elems) => Doc(seq(|elems|, k requires 0 <= k < |elems| => DocElem(elems[k].name, Decoded(elems[k].value))))
    case Arr(items) => Arr(seq(|items|, k requires 0 <= k < |items| => Decoded(items[k])))
    case _ => v
  }

  /** Integers fit 32 bits and no binary data has the obsolete subtype. */
  predicate Lossless(v: Value)
    decreases v
  {
    match v
    case Int(i) => -TWO_31 <= i < TWO_31
    case Binary(subtype, _) => subtype != 2
    case Doc(elems) => forall k :: 0 <= k < |elems| ==> Lossless(elems[k].value)
    case Arr(items) => forall k :: 0 <= k < |items| ==> Lossless(items[k])
    case _ => true
  }

  /** Decoding gives back the very value exactly when nothing in it is lossy. */
  lemma {:induction false} DecodedIsSame(v: Value)
    ensures Decoded(v) == v <==> Lossless(v)
    decreases v
  {
    match v
    case Doc(elems) =>
      forall k | 0 <= k < |elems|
        ensures Decoded(elems[k].value) == elems[k].value <==> Lossless(elems[k].value)
      {
        DecodedIsSame(elems[k].value);
      }
      var elems' := Decoded(v).elems;
      if Lossless(v) { assert elems' == elems; }
      if Decoded(v) == v {
        forall k | 0 <= k < |elems| ensures Lossless(elems[k].value) {
          assert elems'[k] == elems[k];
        }
      }
    case Arr(items) =>
      forall k | 0 <= k < |items| ensures Decoded(items[k]) == items[k] <==> Lossless(items[k]) {
        DecodedIsSame(items[k]);
      }
      var items' := Decoded(v).items;
      if Lossless(v) { assert items' == items; }
      if Decoded(v) == v {
        forall k | 0 <= k < |items| ensures Lossless(items[k]) { assert items'[k] == items[k]; }
      }
    case _ =>
  }
}
