/**
 The bytes of each kind of value, as the table in the repository's tests lists them, and the
 samples of bsonspec.org that it quotes. They fix what encoder and decoder could otherwise agree
 to exchange.
 */
module BsonSamples {
  import opened Octets
  import opened BsonValues

  /** An element named `_`. */
  function Item(v: Value): seq<Byte> { ElemBytes([0x5f], v) }

  lemma Lengths()
    ensures Int32Bytes(2) == [2, 0, 0, 0] && Int32Bytes(3) == [3, 0, 0, 0] && Int32Bytes(4) == [4, 0, 0, 0]
    ensures Int32Bytes(5) == [5, 0, 0, 0] && Int32Bytes(6) == [6, 0, 0, 0] && Int32Bytes(7) == [7, 0, 0, 0]
    ensures Int32Bytes(8) == [8, 0, 0, 0] && Int32Bytes(9) == [9, 0, 0, 0] && Int32Bytes(13) == [13, 0, 0, 0]
    ensures Int32Bytes(22) == [22, 0, 0, 0] && Int32Bytes(38) == [38, 0, 0, 0] && Int32Bytes(49) == [49, 0, 0, 0]
  {
  }

  lemma Numbers()
    ensures Item(Double(0x4014_3333_3333_3333)) == [0x01, 0x5f, 0, 0x33, 0x33, 0x33, 0x33, 0x33, 0x33, 0x14, 0x40]
    ensures Item(Time(258)) == [0x09, 0x5f, 0, 2, 1, 0, 0, 0, 0, 0, 0]
    ensures Item(Int(258)) == [0x10, 0x5f, 0, 2, 1, 0, 0]
  {
    hide Int64Bytes;
    Wide();
  }

  /** Eight bytes, lowest first. */
  lemma Wide()
    ensures Int64Bytes(0x4014_3333_3333_3333) == [0x33, 0x33, 0x33, 0x33, 0x33, 0x33, 0x14, 0x40]
    ensures Int64Bytes(258) == [2, 1, 0, 0, 0, 0, 0, 0]
    ensures Int64Bytes(258 * 0x1_0000_0000) == [0, 0, 0, 0, 2, 1, 0, 0]
  {
    hide Bytes;
    FourBytes(0x4014_3333_3333_3333, 4);
    FourBytes(0x4014_3333, 0);
    FourBytes(258, 4);
    FourBytes(0, 0);
    FourBytes(258 * 0x1_0000_0000, 4);
    FourBytes(258, 0);
    NoBytes();
  }

  lemma NoBytes()
    ensures Bytes(0, 0) == []
  {
  }

  lemma FourBytes(n: nat, k: nat)
    ensures Bytes(n, k + 4) ==
      [n % 256, n / 256 % 256, n / 256 / 256 % 256, n / 256 / 256 / 256 % 256] + Bytes(n / 256 / 256 / 256 / 256, k)
  {
    assert Bytes(n, k + 4) == [n % 256] + Bytes(n / 256, k + 3);
    assert Bytes(n / 256, k + 3) == [n / 256 % 256] + Bytes(n / 256 / 256, k + 2);
    assert Bytes(n / 256 / 256, k + 2) == [n / 256 / 256 % 256] + Bytes(n / 256 / 256 / 256, k + 1);
  }

  lemma Longs()
    ensures Item(Timestamp(258)) == [0x11, 0x5f, 0, 2, 1, 0, 0, 0, 0, 0, 0]
    ensures Item(Long(258)) == [0x12, 0x5f, 0, 2, 1, 0, 0, 0, 0, 0, 0]
    ensures Item(Long(258 * 0x1_0000_0000)) == [0x12, 0x5f, 0, 0, 0, 0, 0, 2, 1, 0, 0]
  {
    hide Int64Bytes;
    Wide();
  }

  lemma Constants()
    ensures Item(Undefined) == [0x06, 0x5f, 0]
    ensures Item(Bool(false)) == [0x08, 0x5f, 0, 0]
    ensures Item(Bool(true)) == [0x08, 0x5f, 0, 1]
    ensures Item(Null) == [0x0A, 0x5f, 0]
    ensures Item(MaxKey) == [0x7F, 0x5f, 0]
    ensures Item(MinKey) == [0xFF, 0x5f, 0]
  {
  }

  lemma Texts()
    ensures Item(Str([0x79, 0x6f])) == [0x02, 0x5f, 0, 3, 0, 0, 0, 0x79, 0x6f, 0]
    ensures Item(JavaScript([0x63, 0x6f, 0x64, 0x65])) == [0x0D, 0x5f, 0, 5, 0, 0, 0, 0x63, 0x6f, 0x64, 0x65, 0]
    ensures Item(Symbol([0x73, 0x79, 0x6d])) == [0x0E, 0x5f, 0, 4, 0, 0, 0, 0x73, 0x79, 0x6d, 0]
    ensures Item(RegEx([0x61, 0x62], [0x63, 0x64])) == [0x0B, 0x5f, 0, 0x61, 0x62, 0, 0x63, 0x64, 0]
  {
    hide Int32Bytes;
    Lengths();
  }

  lemma Bytestrings(id: seq<Byte>)
    ensures Item(Binary(0, [0x79, 0x6f])) == [0x05, 0x5f, 0, 2, 0, 0, 0, 0, 0x79, 0x6f]
    ensures Item(Binary(0x80, [0x75, 0x64, 0x65, 0x66])) == [0x05, 0x5f, 0, 4, 0, 0, 0, 0x80, 0x75, 0x64, 0x65, 0x66]
    ensures Item(Binary(2, [0x6f, 0x6c, 0x64])) ==
      [0x05, 0x5f, 0, 7, 0, 0, 0, 2, 3, 0, 0, 0, 0x6f, 0x6c, 0x64]
    ensures Item(ObjectId(id)) == [0x07, 0x5f, 0] + id
  {
    hide Int32Bytes;
    Lengths();
    ObjectIdBytes(id);
  }

  /** The bytes of a document of one element, and of an array of two items. */
  lemma OneElem(name: seq<Byte>, v: Value)
    ensures ValueBytes(Doc([DocElem(name, v)])) == Framed(ElemBytes(name, v))
  {
    hide ElemBytes, Framed;
    var elem := DocElem(name, v);
    assert [elem][..0] == [];
    assert ElemsBytes([elem]) == [] + ElemBytes(name, v) == ElemBytes(name, v);
  }

  lemma TwoItems(a: Value, b: Value)
    ensures ValueBytes(Arr([a, b])) == Framed(ElemBytes([0x30], a) + ElemBytes([0x31], b))
  {
    hide ElemBytes, Framed;
    Indices();
    assert [a][..0] == [] && [a, b][..1] == [a];
    assert ItemsBytes([a]) == [] + ElemBytes([0x30], a) == ElemBytes([0x30], a);
  }

  lemma ItemIs(v: Value)
    ensures Item(v) == [Kind(v), 0x5f, 0] + ValueBytes(v)
  {
    hide ValueBytes;
  }

  /** A document and an array with its indices for names. */
  lemma Nested()
    ensures Item(Doc([DocElem([0x61], Bool(true))])) == [0x03, 0x5f, 0, 9, 0, 0, 0, 0x08, 0x61, 0, 1, 0]
    ensures Item(Arr([Bool(true), Bool(false)])) ==
      [0x04, 0x5f, 0, 13, 0, 0, 0, 0x08, 0x30, 0, 1, 0x08, 0x31, 0, 0, 0]
  {
    Flags();
    hide Int32Bytes, ElemBytes, ValueBytes, Item;
    Lengths();
    OneElem([0x61], Bool(true));
    TwoItems(Bool(true), Bool(false));
    ItemIs(Doc([DocElem([0x61], Bool(true))]));
    ItemIs(Arr([Bool(true), Bool(false)]));
  }

  lemma Flags()
    ensures ElemBytes([0x61], Bool(true)) == [0x08, 0x61, 0, 1]
    ensures ElemBytes([0x30], Bool(true)) == [0x08, 0x30, 0, 1]
    ensures ElemBytes([0x31], Bool(false)) == [0x08, 0x31, 0, 0]
  {
  }

  lemma ObjectIdBytes(id: seq<Byte>)
    ensures Item(ObjectId(id)) == [0x07, 0x5f, 0] + id
  {
    assert ValueBytes(ObjectId(id)) == id;
    assert ElemBytes([0x5f], ObjectId(id)) == [0x07] + CStr([0x5f]) + id;
  }

  lemma Indices()
    ensures Itoa(0) == [0x30] && Itoa(1) == [0x31]
  {
  }

  /** {"hello": "world"} */
  lemma HelloWorld()
    ensures ValueBytes(Doc([DocElem([0x68, 0x65, 0x6c, 0x6c, 0x6f], Str([0x77, 0x6f, 0x72, 0x6c, 0x64]))])) ==
      [0x16, 0, 0, 0, 0x02, 0x68, 0x65, 0x6c, 0x6c, 0x6f, 0, 6, 0, 0, 0, 0x77, 0x6f, 0x72, 0x6c, 0x64, 0, 0]
  {
    HelloElem();
    hide Int32Bytes, ElemBytes, ValueBytes;
    Lengths();
    OneElem([0x68, 0x65, 0x6c, 0x6c, 0x6f], Str([0x77, 0x6f, 0x72, 0x6c, 0x64]));
  }

  lemma HelloElem()
    ensures ElemBytes([0x68, 0x65, 0x6c, 0x6c, 0x6f], Str([0x77, 0x6f, 0x72, 0x6c, 0x64])) ==
      [0x02, 0x68, 0x65, 0x6c, 0x6c, 0x6f, 0, 6, 0, 0, 0, 0x77, 0x6f, 0x72, 0x6c, 0x64, 0]
  {
    hide Int32Bytes;
    Lengths();
  }

  /** Every kind of value that is modelled, as the tests list it. */
  lemma TestItems(id: seq<Byte>)
    ensures Item(Double(0x4014_3333_3333_3333)) == [0x01, 0x5f, 0, 0x33, 0x33, 0x33, 0x33, 0x33, 0x33, 0x14, 0x40]
    ensures Item(Str([0x79, 0x6f])) == [0x02, 0x5f, 0, 3, 0, 0, 0, 0x79, 0x6f, 0]
    ensures Item(Doc([DocElem([0x61], Bool(true))])) == [0x03, 0x5f, 0, 9, 0, 0, 0, 0x08, 0x61, 0, 1, 0]
    ensures Item(Arr([Bool(true), Bool(false)])) ==
      [0x04, 0x5f, 0, 13, 0, 0, 0, 0x08, 0x30, 0, 1, 0x08, 0x31, 0, 0, 0]
    ensures Item(Binary(0, [0x79, 0x6f])) == [0x05, 0x5f, 0, 2, 0, 0, 0, 0, 0x79, 0x6f]
    ensures Item(Binary(0x80, [0x75, 0x64, 0x65, 0x66])) == [0x05, 0x5f, 0, 4, 0, 0, 0, 0x80, 0x75, 0x64, 0x65, 0x66]
    ensures Item(Binary(2, [0x6f, 0x6c, 0x64])) == [0x05, 0x5f, 0, 7, 0, 0, 0, 2, 3, 0, 0, 0, 0x6f, 0x6c, 0x64]
    ensures Item(Undefined) == [0x06, 0x5f, 0]
    ensures Item(ObjectId(id)) == [0x07, 0x5f, 0] + id
    ensures Item(Bool(false)) == [0x08, 0x5f, 0, 0] && Item(Bool(true)) == [0x08, 0x5f, 0, 1]
    ensures Item(Time(258)) == [0x09, 0x5f, 0, 2, 1, 0, 0, 0, 0, 0, 0]
    ensures Item(Null) == [0x0A, 0x5f, 0]
    ensures Item(RegEx([0x61, 0x62], [0x63, 0x64])) == [0x0B, 0x5f, 0, 0x61, 0x62, 0, 0x63, 0x64, 0]
    ensures Item(JavaScript([0x63, 0x6f, 0x64, 0x65])) == [0x0D, 0x5f, 0, 5, 0, 0, 0, 0x63, 0x6f, 0x64, 0x65, 0]
    ensures Item(Symbol([0x73, 0x79, 0x6d])) == [0x0E, 0x5f, 0, 4, 0, 0, 0, 0x73, 0x79, 0x6d, 0]
    ensures Item(Int(258)) == [0x10, 0x5f, 0, 2, 1, 0, 0]
    ensures Item(Timestamp(258)) == [0x11, 0x5f, 0, 2, 1, 0, 0, 0, 0, 0, 0]
    ensures Item(Long(258)) == [0x12, 0x5f, 0, 2, 1, 0, 0, 0, 0, 0, 0]
    ensures Item(Long(258 * 0x1_0000_0000)) == [0x12, 0x5f, 0, 0, 0, 0, 0, 2, 1, 0, 0]
    ensures Item(MaxKey) == [0x7F, 0x5f, 0] && Item(MinKey) == [0xFF, 0x5f, 0]
  {
    hide *;
    Numbers();
    Longs();
    Constants();
    Texts();
    Bytestrings(id);
    Nested();
  }
}
