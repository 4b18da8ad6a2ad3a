/**
 The encoder and the decoder themselves: the one appends to its output and patches document
 lengths in place, the other moves a cursor over its input.
 */
module BsonCodec {
  import opened Arithmetic
  import opened BsonValues
  import opened Octets
  import opened BsonDecoder

  // ---------------------------------------------------------------------------------------
  // The encoder

  class Encoder {
    var out: seq<Byte>

    constructor ()
      ensures out == []
    {
      out := [];
    }

    method AddBytes(s: seq<Byte>)
      modifies this
      ensures out == old(out) + s
    {
      out := out + s;
    }

    method AddInt32(v: int)
      modifies this
      ensures out == old(out) + Int32Bytes(v)
    {
      hide Int32Bytes;
      var u := v % TWO_32;
      FourBytes(v);
      AddBytes([u % 256, u / 256 % 256, u / 0x10000 % 256, u / 0x100_0000 % 256]);
    }

    method AddInt64(v: Int64)
      modifies this
      ensures out == old(out) + Int64Bytes(v)
    {
      hide Int64Bytes;
      var u := v % TWO_64;
      EightBytes(v);
      AddBytes([u % 256, u / 256 % 256, u / 0x10000 % 256, u / 0x100_0000 % 256,
                u / 0x1_0000_0000 % 256, u / 0x100_0000_0000 % 256, u / 0x1_0000_0000_0000 % 256,
                u / 0x100_0000_0000_0000 % 256]);
    }

    method ReserveInt32() returns (pos: nat)
      modifies this
      ensures pos == |old(out)| && out == old(out) + [0, 0, 0, 0]
    {
      pos := |out|;
      AddBytes([0, 0, 0, 0]);
    }

    /** Overwrites the four bytes at `pos`. */
    method SetInt32(pos: nat, v: int)
      requires pos + 4 <= |out|
      modifies this
      ensures out == old(out)[..pos] + Int32Bytes(v) + old(out)[pos + 4..]
    {
      hide Int32Bytes;
      var u := v % TWO_32;
      FourBytes(v);
      out := out[pos := u % 256];
      out := out[pos + 1 := u / 256 % 256];
      out := out[pos + 2 := u / 0x10000 % 256];
      out := out[pos + 3 := u / 0x100_0000 % 256];
    }

    method AddCStr(s: seq<Byte>)
      modifies this
      ensures out == old(out) + CStr(s)
    {
      AddBytes(s);
      AddBytes([0]);
      assert out == old(out) + (s + [0]);
    }

    method AddStr(s: seq<Byte>)
      modifies this
      ensures out == old(out) + StrBytes(s)
    {
      hide Int32Bytes, CStr;
      AddInt32(|s| + 1);
      AddCStr(s);
      assert out == old(out) + (Int32Bytes(|s| + 1) + CStr(s));
    }

    method AddBinary(subtype: Byte, data: seq<Byte>)
      modifies this
      ensures out == old(out) + BinaryBytes(subtype, data)
    {
      hide Int32Bytes;
      if subtype == 2 {
        AddInt32(|data| + 4);
        AddBytes([subtype]);
        AddInt32(|data|);
      } else {
        AddInt32(|data|);
        AddBytes([subtype]);
      }
      AddBytes(data);
      assert out == old(out) + BinaryBytes(subtype, data);
    }

    method AddElemName(kind: Byte, name: seq<Byte>)
      modifies this
      ensures out == old(out) + ([kind] + CStr(name))
    {
      AddBytes([kind]);
      AddBytes(name);
      AddBytes([0]);
      assert out == old(out) + ([kind] + (name + [0]));
    }

    /** Appends one element; refuses exactly the values holding an object id of wrong length. */
    method AddElem(name: seq<Byte>, v: Value) returns (ok: bool)
      modifies this
      ensures ok <==> WellFormed(v)
      ensures ok ==> out == old(out) + ElemBytes(name, v)
      decreases v, 2
    {
      hide CStr, StrBytes, BinaryBytes, Int32Bytes, Int64Bytes, Framed;
      if v.ObjectId? && |v.id| != 12 { return false; }
      AddElemName(Kind(v), name);
      ghost var start := out;
      ok := true;
      match v {
        case Double(bits) => AddInt64(bits);
        case Str(s) => AddStr(s);
        case Doc(_) => ok := AddDoc(v);
        case Arr(_) => ok := AddDoc(v);
        case Binary(subtype, data) => AddBinary(subtype, data);
        case Undefined =>
        case ObjectId(id) => AddBytes(id);
        case Bool(b) => AddBytes([if b then 1 else 0]);
        case Time(millis) => AddInt64(millis);
        case Null =>
        case RegEx(pattern, options) =>
          AddCStr(pattern);
          AddCStr(options);
          assert out == start + (CStr(pattern) + CStr(options));
        case JavaScript(code) => AddStr(code);
        case Symbol(s) => AddStr(s);
        case Int(i) => AddInt32(i);
        case Timestamp(t) => AddInt64(t);
        case Long(l) => AddInt64(l);
        case MaxKey =>
        case MinKey =>
      }
      if ok {
        assert out == start + ValueBytes(v);
        assert out == old(out) + ([Kind(v)] + CStr(name) + ValueBytes(v));
      }
    }

    /** Appends a document or array, patching its length once its size is known. */
    method AddDoc(v: Value) returns (ok: bool)
      requires v.Doc? || v.Arr?
      modifies this
      ensures ok <==> WellFormed(v)
      ensures ok ==> out == old(out) + ValueBytes(v)
      decreases v, 1
    {
      hide Int32Bytes, ElemBytes, Itoa;
      var start := ReserveInt32();
      ghost var head := out;
      ok := AddSlice(v);
      if !ok { return; }
      AddBytes([0]);
      ghost var body := if v.Doc? then ElemsBytes(v.elems) else ItemsBytes(v.items);
      assert out == old(out) + [0, 0, 0, 0] + body + [0];
      SetInt32(start, |out| - start);
      assert out == old(out) + (Int32Bytes(|body| + 5) + body + [0]);
    }

    method AddSlice(v: Value) returns (ok: bool)
      requires v.Doc? || v.Arr?
      modifies this
      ensures ok <==> WellFormed(v)
      ensures ok ==> out == old(out) + if v.Doc? then ElemsBytes(v.elems) else ItemsBytes(v.items)
      decreases v, 0
    {
      hide ElemBytes, Itoa, ElemsBytes, ItemsBytes;
      ok := true;
      ElemsNone();
      if v.Doc? {
        var elems := v.elems;
        assert elems[..0] == [];
        for k := 0 to |elems|
          invariant out == old(out) + ElemsBytes(elems[..k])
          invariant forall j :: 0 <= j < k ==> WellFormed(elems[j].value)
        {
          ElemsLast(elems[..k + 1]);
          assert elems[..k + 1][..k] == elems[..k];
          ok := AddElem(elems[k].name, elems[k].value);
          if !ok { return; }
        }
        assert elems[..|elems|] == elems;
      } else {
        var items := v.items;
        assert items[..0] == [];
        for k := 0 to |items|
          invariant out == old(out) + ItemsBytes(items[..k])
          invariant forall j :: 0 <= j < k ==> WellFormed(items[j])
        {
          ItemsLast(items[..k + 1]);
          assert items[..k + 1][..k] == items[..k];
          ok := AddElem(Itoa(k), items[k]);
          if !ok { return; }
        }
        assert items[..|items|] == items;
      }
    }
  }

  lemma ItemsLast(items: seq<Value>)
    requires items != []
    ensures ItemsBytes(items) == ItemsBytes(items[..|items| - 1]) + ElemBytes(Itoa(|items| - 1), items[|items| - 1])
  {
    hide ElemBytes, Itoa;
  }

  lemma TwoBytes(n: nat, k: nat)
    ensures Bytes(n, k + 2) == [n % 256, n / 256 % 256] + Bytes(n / 0x10000, k)
  {
    assert n / 256 / 256 == n / 0x10000;
  }

  lemma LowFour(n: nat, k: nat)
    ensures Bytes(n, k + 4) == [n % 256, n / 256 % 256, n / 0x10000 % 256, n / 0x100_0000 % 256] + Bytes(n / TWO_32, k)
  {
    hide Bytes;
    TwoBytes(n, k + 2);
    TwoBytes(n / 0x10000, k);
    assert n / 0x10000 / 256 == n / 0x100_0000;
    assert n / 0x10000 / 0x10000 == n / TWO_32;
  }

  lemma NoBytes(n: nat)
    ensures Bytes(n, 0) == []
  {
  }

  lemma FourBytes(v: int)
    ensures
      var u := v % TWO_32;
      Int32Bytes(v) == [u % 256, u / 256 % 256, u / 0x10000 % 256, u / 0x100_0000 % 256]
  {
    hide Bytes;
    LowFour(v % TWO_32, 0);
    NoBytes(v % TWO_32 / TWO_32);
  }

  lemma EightBytes(v: int)
    ensures
      var u := v % TWO_64;
      Int64Bytes(v) ==
        [u % 256, u / 256 % 256, u / 0x10000 % 256, u / 0x100_0000 % 256,
         u / 0x1_0000_0000 % 256, u / 0x100_0000_0000 % 256, u / 0x1_0000_0000_0000 % 256,
         u / 0x100_0000_0000_0000 % 256]
  {
    hide Bytes;
    var u := v % TWO_64;
    var w := u / TWO_32;
    LowFour(u, 4);
    LowFour(w, 0);
    NoBytes(w / TWO_32);
    DivDiv(u, TWO_32, 256);
    DivDiv(u, TWO_32, 0x10000);
    DivDiv(u, TWO_32, 0x100_0000);
  }

  // ---------------------------------------------------------------------------------------
  // The decoder

  /** The outcome of a read; a failure stops the whole decoding. */
  datatype Result<T> = Ok(value: T) | Err(error: Error) {
    predicate IsFailure() { Err? }
    function PropagateFailure<U>(): Result<U>
      requires Err?
    {
      Err(error)
    }
    function Extract(): T
      requires Ok?
    {
      value
    }
  }

  /** A read gave what the specification says, and left the cursor where it says. */
  ghost predicate Agrees<T(!new)>(p: Parsed<T>, r: Result<T>, i: int) {
    match p
    case Parsed(v, next) => r == Ok(v) && i == next
    case Failed(e) => r == Err(e)
  }

  class Decoder {
    const input: seq<Byte>
    var i: int

    constructor (input: seq<Byte>)
      ensures this.input == input && i == 0 && Valid()
    {
      this.input, i := input, 0;
    }

    ghost predicate Valid()
      reads this
    {
      0 <= i <= |input|
    }

    method ReadBytes(length: int) returns (r: Result<seq<Byte>>)
      requires Valid()
      modifies this
      ensures Agrees(BytesAt(input, old(i), length), r, i)
    {
      var start := i;
      i := i + length;
      if i > |input| { return Err(Corrupted); }
      if start + length < start { return Err(OutOfRange); }
      return Ok(input[start..start + length]);
    }

    method ReadByte() returns (r: Result<Byte>)
      requires Valid()
      modifies this
      ensures Agrees(ByteAt(input, old(i)), r, i)
    {
      var at := i;
      i := i + 1;
      if i > |input| { return Err(Corrupted); }
      return Ok(input[at]);
    }

    method ReadInt32() returns (r: Result<Int64>)
      requires Valid()
      modifies this
      ensures Agrees(Int32At(input, old(i)), r, i)
    {
      hide Signed32;
      var b :- ReadBytes(4);
      FromFour(b);
      assert b[..4] == b;
      return Ok(Signed32(Sum4(b)));
    }

    method ReadInt64() returns (r: Result<Int64>)
      requires Valid()
      modifies this
      ensures Agrees(Int64At(input, old(i)), r, i)
    {
      hide Signed64;
      var b :- ReadBytes(8);
      FromEight(b);
      return Ok(Signed64(Sum4(b[..4]) + Sum4(b[4..]) * TWO_32));
    }

    method ReadCStr() returns (r: Result<seq<Byte>>)
      requires Valid()
      modifies this
      ensures Agrees(CStrAt(input, old(i)), r, i)
    {
      var start := i;
      var end := start;
      while end != |input| && input[end] != 0
        invariant start <= end <= |input|
        invariant NulFrom(input, end, |input|) == NulFrom(input, start, |input|)
      {
        end := end + 1;
      }
      i := end + 1;
      if i > |input| { return Err(Corrupted); }
      return Ok(input[start..end]);
    }

    method ReadStr() returns (r: Result<seq<Byte>>)
      requires Valid()
      modifies this
      ensures Agrees(StrAt(input, old(i)), r, i)
    {
      hide Int32At, BytesAt, ByteAt, Signed32;
      var l :- ReadInt32();
      var b :- ReadBytes(Signed32(l as int - 1));
      var z :- ReadByte();
      if z != 0 { return Err(Corrupted); }
      return Ok(b);
    }

    method ReadBinary() returns (r: Result<Value>)
      requires Valid()
      modifies this
      ensures Agrees(BinaryAt(input, old(i)), r, i)
    {
      hide Int32At, BytesAt, ByteAt;
      var l :- ReadInt32();
      var kind :- ReadByte();
      var data :- ReadBytes(l);
      if kind == 2 {
        if |data| < 4 { return Err(OutOfRange); }
        data := data[4..];
      }
      return Ok(Binary(if kind == 0 || kind == 2 then 0 else kind, data));
    }

    method ReadRegEx() returns (r: Result<Value>)
      requires Valid()
      modifies this
      ensures Agrees(RegExAt(input, old(i)), r, i)
    {
      hide CStrAt;
      var pattern :- ReadCStr();
      var options :- ReadCStr();
      return Ok(RegEx(pattern, options));
    }

    /** The value of one element, by its kind. */
    method ReadElemTo(kind: Byte) returns (r: Result<Value>)
      requires Valid()
      modifies this
      ensures Agrees(ValueAt(input, old(i), kind), r, i)
      decreases |input| - i, 2
    {
      hide Int32At, Int64At, BytesAt, ByteAt, StrAt, BinaryAt, RegExAt;
      match kind {
        case 0x01 => var v :- ReadInt64(); return Ok(Double(v));
        case 0x02 => var v :- ReadStr(); return Ok(Str(v));
        case 0x03 => var v :- ReadDocElems(); return Ok(Doc(v));
        case 0x04 => var v :- ReadSliceDoc(); return Ok(Arr(v));
        case 0x05 => r := ReadBinary();
        case 0x06 => return Ok(Undefined);
        case 0x07 => var v :- ReadBytes(12); return Ok(ObjectId(v));
        case 0x08 => var v :- ReadByte(); return Ok(Bool(v == 1));
        case 0x09 => var v :- ReadInt64(); return Ok(Time(v));
        case 0x0A => return Ok(Null);
        case 0x0B => r := ReadRegEx();
        case 0x0D => var v :- ReadStr(); return Ok(JavaScript(v));
        case 0x0E => var v :- ReadStr(); return Ok(Symbol(v));
        case 0x10 => var v :- ReadInt32(); return Ok(Int(v));
        case 0x11 => var v :- ReadInt64(); return Ok(Timestamp(v));
        case 0x12 => var v :- ReadInt64(); return Ok(Long(v));
        case 0x7F => return Ok(MaxKey);
        case 0xFF => return Ok(MinKey);
        case _ => return Err(UnknownKind);
      }
    }

    /** An ordered document. */
    method ReadDocElems() returns (r: Result<seq<DocElem>>)
      requires Valid()
      modifies this
      ensures Agrees(DocAt(input, old(i)), r, i)
      decreases |input| - i, 1
    {
      hide Int32At, CStrAt, ValueAt;
      ghost var from := i;
      var length :- ReadInt32();
      var end := i - 4 + length;
      if end <= i || end > |input| || input[end - 1] != 0 { return Err(Corrupted); }
      var slice := [];
      ghost var first := i;
      while input[i] != 0
        invariant first <= i < end <= |input|
        invariant ElemsAt(input, i, end, slice) == ElemsAt(input, first, end, [])
        decreases |input| - i
      {
        var read := ReadByte();
        var kind := read.value;
        var name :- ReadCStr();
        if i >= end { return Err(Corrupted); }
        var v :- ReadElemTo(kind);
        if i >= end { return Err(Corrupted); }
        slice := slice + [DocElem(name, v)];
      }
      i := i + 1;
      if i != end { return Err(Corrupted); }
      return Ok(slice);
    }

    method SkipName(end: int)
      requires 0 <= i <= end <= |input|
      modifies this
      ensures i == NulFrom(input, old(i), end)
    {
      while i < end && input[i] != 0
        invariant old(i) <= i <= end
        invariant NulFrom(input, i, end) == NulFrom(input, old(i), end)
      {
        i := i + 1;
      }
    }

    /** An array; the names of its items are skipped. */
    method ReadSliceDoc() returns (r: Result<seq<Value>>)
      requires Valid()
      modifies this
      ensures Agrees(ArrAt(input, old(i)), r, i)
      decreases |input| - i, 1
    {
      hide Int32At, ValueAt, NulFrom;
      var length :- ReadInt32();
      var end := i - 4 + length;
      if end <= i || end > |input| || input[end - 1] != 0 { return Err(Corrupted); }
      var slice := [];
      ghost var first := i;
      while input[i] != 0
        invariant first <= i < end <= |input|
        invariant ItemsAt(input, i, end, slice) == ItemsAt(input, first, end, [])
        decreases |input| - i
      {
        var read := ReadByte();
        var kind := read.value;
        SkipName(end);
        if i >= end { return Err(Corrupted); }
        i := i + 1;
        var v :- ReadElemTo(kind);
        if i >= end { return Err(Corrupted); }
        slice := slice + [v];
      }
      i := i + 1;
      if i != end { return Err(Corrupted); }
      return Ok(slice);
    }
  }

  /** The bytes' bits side by side. */
  function Sum4(b: seq<Byte>): nat
    requires |b| == 4
  {
    b[0] as int + b[1] as int * 256 + b[2] as int * 0x10000 + b[3] as int * 0x100_0000
  }

  lemma FromTwo(b: seq<Byte>)
    requires |b| >= 2
    ensures FromBytes(b) == b[0] as int + 256 * b[1] as int + 0x10000 * FromBytes(b[2..])
  {
    assert b[1..][1..] == b[2..];
  }

  lemma FromFour(b: seq<Byte>)
    requires |b| >= 4
    ensures FromBytes(b) == Sum4(b[..4]) + TWO_32 * FromBytes(b[4..])
  {
    FromTwo(b);
    FromTwo(b[2..]);
    assert b[2..][2..] == b[4..];
  }

  lemma FromEight(b: seq<Byte>)
    requires |b| == 8
    ensures FromBytes(b) == Sum4(b[..4]) + TWO_32 * Sum4(b[4..])
  {
    FromFour(b);
    FromFour(b[4..]);
    assert b[4..][..4] == b[4..];
  }
}
