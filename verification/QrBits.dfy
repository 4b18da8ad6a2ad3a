/** Numbers as strings of bits, highest first, as both ends of the QR path write and read them. */
module QrBits {
  import opened Arithmetic

  function Pow2(n: nat): (p: nat)
    ensures p > 0
  {
    if n == 0 then 1 else 2 * Pow2(n - 1)
  }

  /** The lowest `count` bits of `v`, highest first. */
  function NatBits(v: nat, count: nat): (bits: seq<bool>)
    ensures |bits| == count
  {
    if count == 0 then [] else [v / Pow2(count - 1) % 2 == 1] + NatBits(v, count - 1)
  }

  /** The number read by shifting `bits` in after `v`. */
  function ShiftIn(v: nat, bits: seq<bool>): nat
    decreases bits
  {
    if bits == [] then v else ShiftIn(2 * v + if bits[0] then 1 else 0, bits[1..])
  }

  lemma HalfSplit(v: nat, p: nat)
    requires p > 0
    ensures v % (2 * p) == (v / p % 2) * p + v % p
  {
    var q := v / p;
    HalfArithmetic(p, q / 2, q % 2);
    QuotientIs(v, 2 * p, q / 2, (q % 2) * p + v % p);
  }

  lemma HalfArithmetic(p: nat, h: nat, b: nat)
    requires b < 2
    ensures p * (2 * h + b) == (2 * p) * h + b * p
    ensures b * p == if b == 0 then 0 else p
  {
  }

  /** Shifting in the bits of a number appends it. */
  lemma {:induction false} ShiftInBits(cur: nat, v: nat, count: nat)
    ensures ShiftIn(cur, NatBits(v, count)) == cur * Pow2(count) + v % Pow2(count)
    decreases count
  {
    hide Pow2;
    Pow2Unfold(count);
    if count > 0 {
      var p := Pow2(count - 1);
      var b := v / p % 2;
      assert NatBits(v, count)[1..] == NatBits(v, count - 1);
      ShiftInBits(2 * cur + b, v, count - 1);
      HalfSplit(v, p);
      ShiftArithmetic(cur, b, p);
    }
  }

  lemma Pow2Unfold(n: nat)
    ensures Pow2(0) == 1 && (n > 0 ==> Pow2(n) == 2 * Pow2(n - 1))
  {
  }

  lemma ShiftArithmetic(cur: nat, b: nat, p: nat)
    ensures (2 * cur + b) * p == cur * (2 * p) + b * p
  {
  }

  lemma {:induction false} ShiftInAppend(v: nat, a: seq<bool>, b: seq<bool>)
    ensures ShiftIn(v, a + b) == ShiftIn(ShiftIn(v, a), b)
    decreases a
  {
    if a == [] {
      assert a + b == b;
    } else {
      assert (a + b)[1..] == a[1..] + b;
      ShiftInAppend(2 * v + if a[0] then 1 else 0, a[1..], b);
    }
  }

  function ByteBits(bytes: seq<nat>): (bits: seq<bool>)
    ensures |bits| == 8 * |bytes|
  {
    if bytes == [] then [] else NatBits(bytes[0], 8) + ByteBits(bytes[1..])
  }

  /** What a reader collects that saves a byte after every eighth bit. */
  function Packed(bits: seq<bool>, saved: seq<nat>, cur: nat, n: nat): seq<nat>
    requires n < 8
    decreases |bits|
  {
    if bits == [] then saved else
      var cur' := 2 * cur + if bits[0] then 1 else 0;
      if n == 7 then Packed(bits[1..], saved + [cur'], 0, 0) else Packed(bits[1..], saved, cur', n + 1)
  }

  lemma {:induction false} PackedByte(bits: seq<bool>, rest: seq<bool>, saved: seq<nat>, cur: nat, n: nat)
    requires 0 < |bits| == 8 - n
    ensures Packed(bits + rest, saved, cur, n) == Packed(rest, saved + [ShiftIn(cur, bits)], 0, 0)
    decreases |bits|
  {
    assert (bits + rest)[1..] == bits[1..] + rest;
    var cur' := 2 * cur + if bits[0] then 1 else 0;
    if n < 7 {
      PackedByte(bits[1..], rest, saved, cur', n + 1);
    } else {
      assert bits[1..] == [];
      assert bits[1..] + rest == rest;
      assert ShiftIn(cur, bits) == cur';
    }
  }

  lemma {:induction false} PackedRest(bits: seq<bool>, saved: seq<nat>, cur: nat, n: nat)
    requires n + |bits| < 8
    ensures Packed(bits, saved, cur, n) == saved
    decreases |bits|
  {
    if bits != [] { PackedRest(bits[1..], saved, 2 * cur + if bits[0] then 1 else 0, n + 1); }
  }

  /** Packing the bits of bytes, and fewer than eight more, gives the bytes. */
  lemma {:induction false} PackedBytes(bytes: seq<nat>, extra: seq<bool>, saved: seq<nat>)
    requires |extra| < 8 && forall k :: 0 <= k < |bytes| ==> bytes[k] < 256
    ensures Packed(ByteBits(bytes) + extra, saved, 0, 0) == saved + bytes
    decreases |bytes|
  {
    hide Packed, NatBits, ShiftIn;
    if bytes == [] {
      assert ByteBits(bytes) + extra == extra;
      PackedRest(extra, saved, 0, 0);
      assert saved + bytes == saved;
    } else {
      var b, rest := bytes[0], ByteBits(bytes[1..]) + extra;
      assert ByteBits(bytes) + extra == NatBits(b, 8) + rest;
      PackedByte(NatBits(b, 8), rest, saved, 0, 0);
      ShiftInBits(0, b, 8);
      Pow2Eight();
      PackedBytes(bytes[1..], extra, saved + [b]);
      assert saved + [b] + bytes[1..] == saved + bytes;
    }
  }

  /** Every byte saved is one. */
  lemma {:induction false} PackedBelow(bits: seq<bool>, saved: seq<nat>, cur: nat, n: nat)
    requires n < 8 && cur < Pow2(n) && forall k :: 0 <= k < |saved| ==> saved[k] < 256
    ensures forall k :: 0 <= k < |Packed(bits, saved, cur, n)| ==> Packed(bits, saved, cur, n)[k] < 256
    decreases |bits|
  {
    hide Pow2;
    Pow2Unfold(n + 1);
    Pow2Unfold(0);
    Pow2Eight();
    if bits != [] {
      var cur' := 2 * cur + if bits[0] then 1 else 0;
      if n == 7 { PackedBelow(bits[1..], saved + [cur'], 0, 0); } else { PackedBelow(bits[1..], saved, cur', n + 1); }
    }
  }

  lemma Pow2Eight()
    ensures Pow2(8) == 256
  {
    assert Pow2(4) == 16;
    assert Pow2(6) == 4 * Pow2(4);
    assert Pow2(8) == 4 * Pow2(6);
  }

  // ---------------------------------------------------------------------------------------
  // Bits cut into bytes

  function Bytes(bits: seq<bool>): (bytes: seq<nat>)
    ensures |bytes| == |bits| / 8
    ensures forall k :: 0 <= k < |bytes| ==> bytes[k] < 256
  {
    if |bits| < 8 then [] else ByteBelow(bits[..8]); [ShiftIn(0, bits[..8])] + Bytes(bits[8..])
  }

  lemma ByteBelow(bits: seq<bool>)
    requires |bits| == 8
    ensures ShiftIn(0, bits) < 256
  {
    hide Pow2;
    ShiftInRange(0, bits);
    Pow2Eight();
  }

  /** What is shifted in stays below the place of what was there. */
  lemma {:induction false} ShiftInRange(v: nat, bits: seq<bool>)
    ensures v * Pow2(|bits|) <= ShiftIn(v, bits) < (v + 1) * Pow2(|bits|)
    decreases bits
  {
    hide Pow2;
    Pow2Unfold(|bits|);
    if bits != [] {
      var b, p := if bits[0] then 1 else 0, Pow2(|bits| - 1);
      ShiftInRange(2 * v + b, bits[1..]);
      ShiftArithmetic(v, b, p);
      ShiftArithmetic(v, b + 1, p);
      assert v * (2 * p) + 2 * p == (v + 1) * (2 * p);
    }
  }

  lemma {:induction false} BitsOfShiftIn(v: nat, bits: seq<bool>)
    ensures NatBits(ShiftIn(v, bits), |bits|) == bits
    decreases bits
  {
    hide Pow2;
    if bits != [] {
      var w, p := 2 * v + (if bits[0] then 1 else 0), Pow2(|bits| - 1);
      BitsOfShiftIn(w, bits[1..]);
      ShiftInRange(w, bits[1..]);
      var n := ShiftIn(v, bits);
      assert w * p + p == (w + 1) * p;
      QuotientIs(n, p, w, n - w * p);
    }
  }

  /** Whole bytes of bits are the bits of those bytes. */
  lemma {:induction false} BytesBack(bits: seq<bool>)
    requires |bits| % 8 == 0
    ensures ByteBits(Bytes(bits)) == bits
    decreases |bits|
  {
    hide ShiftIn, NatBits;
    if |bits| >= 8 {
      BytesBack(bits[8..]);
      BitsOfShiftIn(0, bits[..8]);
      assert Bytes(bits)[1..] == Bytes(bits[8..]);
      assert bits == bits[..8] + bits[8..];
    }
  }

  lemma {:induction false} ByteBitsAppend(a: seq<nat>, b: seq<nat>)
    ensures ByteBits(a + b) == ByteBits(a) + ByteBits(b)
  {
    hide NatBits;
    if a == [] {
      assert a + b == b;
    } else {
      assert (a + b)[1..] == a[1..] + b;
      ByteBitsAppend(a[1..], b);
    }
  }

  /** The bits from number 8k on are those of the k-th byte. */
  lemma {:induction false} ByteAt(bits: seq<bool>, k: nat)
    requires 8 * k + 8 <= |bits|
    ensures Bytes(bits)[k] == ShiftIn(0, bits[8 * k..8 * k + 8])
  {
    hide ShiftIn;
    if k > 0 {
      ByteAt(bits[8..], k - 1);
      assert bits[8..][8 * (k - 1)..8 * (k - 1) + 8] == bits[8 * k..8 * k + 8];
    }
  }

  /** Eight bits looked at in turn, each with its weight. */
  lemma WeightedBits(b: seq<bool>)
    requires |b| == 8
    ensures ShiftIn(0, b) ==
            (if b[0] then 128 else 0) + (if b[1] then 64 else 0) + (if b[2] then 32 else 0) + (if b[3] then 16 else 0) +
            (if b[4] then 8 else 0) + (if b[5] then 4 else 0) + (if b[6] then 2 else 0) + (if b[7] then 1 else 0)
  {
    var high, low := b[..4], b[4..];
    assert b == high + low;
    ShiftInAppend(0, high, low);
    FourBits(0, high);
    FourBits(ShiftIn(0, high), low);
  }

  lemma FourBits(v: nat, b: seq<bool>)
    requires |b| == 4
    ensures ShiftIn(v, b) ==
            16 * v + (if b[0] then 8 else 0) + (if b[1] then 4 else 0) + (if b[2] then 2 else 0) +
              (if b[3] then 1 else 0)
  {
    assert b[1..][1..] == b[2..] && b[2..][1..] == b[3..] && b[3..][1..] == [];
    assert b[1..][0] == b[1] && b[2..][0] == b[2] && b[3..][0] == b[3];
    var w := 2 * v + if b[0] then 1 else 0;
    assert ShiftIn(v, b) == ShiftIn(w, b[1..]);
    var x := 2 * w + if b[1] then 1 else 0;
    assert ShiftIn(w, b[1..]) == ShiftIn(x, b[2..]);
    var y := 2 * x + if b[2] then 1 else 0;
    assert ShiftIn(x, b[2..]) == ShiftIn(y, b[3..]);
    assert ShiftIn(y, b[3..]) == ShiftIn(2 * y + (if b[3] then 1 else 0), []);
  }
}
