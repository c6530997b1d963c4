/**
 Bit packing as compress does it: codes of 9 to 16 bits are laid end to end, low
 bits first, in a block of bytes.  The C operators are defined one bit at a time, so
 that a shift by a variable amount is a number of halvings or doublings.
 */
module LzwBits {

  type byte = x: int | 0 <= x < 256

  const BITS: nat := 16
  const INIT_BITS: nat := 9

  function Pow2(n: nat): (p: nat)
    ensures p > 0
  {
    if n == 0 then 1 else 2 * Pow2(n - 1)
  }

  /** x >> k */
  function Shr(x: nat, k: nat): nat { if k == 0 then x else Shr(x / 2, k - 1) }

  /** x << k */
  function Shl(x: nat, k: nat): nat { if k == 0 then x else 2 * Shl(x, k - 1) }

  /** x & rmask[k]: the low k bits of x */
  function Mask(x: nat, k: nat): (r: nat)
    ensures r < Pow2(k)
  {
    if k == 0 then 0 else x % 2 + 2 * Mask(x / 2, k - 1)
  }

  /** x | y */
  function Or(x: nat, y: nat): nat
    decreases x + y
  {
    if x == 0 then y else if y == 0 then x else
    (if x % 2 == 1 || y % 2 == 1 then 1 else 0) + 2 * Or(x / 2, y / 2)
  }

  predicate Bit(x: nat, j: nat) { if j == 0 then x % 2 == 1 else Bit(x / 2, j - 1) }

  lemma {:induction false} BitZero(j: nat)
    ensures !Bit(0, j)
  {
    if j > 0 { BitZero(j - 1); }
  }

  lemma {:induction false} BitShr(x: nat, k: nat, j: nat)
    ensures Bit(Shr(x, k), j) == Bit(x, j + k)
  {
    if k > 0 { BitShr(x / 2, k - 1, j); }
  }

  lemma {:induction false} BitShl(x: nat, k: nat, j: nat)
    ensures Bit(Shl(x, k), j) == (j >= k && Bit(x, j - k))
  {
    if k > 0 && j > 0 { BitShl(x, k - 1, j - 1); }
  }

  lemma {:induction false} BitMask(x: nat, k: nat, j: nat)
    ensures Bit(Mask(x, k), j) == (j < k && Bit(x, j))
  {
    if k == 0 { BitZero(j); } else if j > 0 { BitMask(x / 2, k - 1, j - 1); }
  }

  lemma {:induction false} BitOr(x: nat, y: nat, j: nat)
    ensures Bit(Or(x, y), j) == (Bit(x, j) || Bit(y, j))
  {
    if x == 0 || y == 0 { BitZero(j); } else if j > 0 { BitOr(x / 2, y / 2, j - 1); }
  }

  lemma {:induction false} OrBound(x: nat, y: nat, k: nat)
    requires x < Pow2(k) && y < Pow2(k)
    ensures Or(x, y) < Pow2(k)
  {
    if k > 0 { OrBound(x / 2, y / 2, k - 1); }
  }

  lemma {:induction false} ShlBound(x: nat, k: nat, n: nat)
    requires x < Pow2(n)
    ensures Shl(x, k) < Pow2(n + k)
    decreases k
  {
    if k > 0 { ShlBound(x, k - 1, n); }
  }

  lemma {:induction false} BitHigh(x: nat, k: nat, j: nat)
    requires x < Pow2(k) && j >= k
    ensures !Bit(x, j)
  {
    if k == 0 { BitZero(j); } else { BitHigh(x / 2, k - 1, j - 1); }
  }

  /** Numbers of k bits that agree on each bit are equal. */
  lemma {:induction false} SameBits(x: nat, y: nat, k: nat)
    requires x < Pow2(k) && y < Pow2(k)
    requires forall j: nat :: j < k ==> Bit(x, j) == Bit(y, j)
    ensures x == y
  {
    if k > 0 {
      forall j: nat | j < k - 1 ensures Bit(x / 2, j) == Bit(y / 2, j) {
        assert Bit(x, j + 1) == Bit(y, j + 1);
      }
      SameBits(x / 2, y / 2, k - 1);
      assert Bit(x, 0) == Bit(y, 0);
    }
  }

  // ---- Blocks of bytes as sequences of bits ----

  predicate BlockBit(s: seq<byte>, j: nat)
    requires j < 8 * |s|
  {
    Bit(s[j / 8], j % 8)
  }

  /** The w-bit code that starts at bit off of a block. */
  function Field(s: seq<byte>, off: nat, w: nat): (r: nat)
    requires off + w <= 8 * |s|
    ensures r < Pow2(w)
    decreases w
  {
    if w == 0 then 0 else (if BlockBit(s, off) then 1 else 0) + 2 * Field(s, off + 1, w - 1)
  }

  lemma BitCons(b: bool, x: nat, j: nat)
    ensures Bit((if b then 1 else 0) + 2 * x, j) == if j == 0 then b else Bit(x, j - 1)
  {
  }

  lemma {:induction false} FieldBit(s: seq<byte>, off: nat, w: nat, j: nat)
    requires off + w <= 8 * |s| && j < w
    ensures Bit(Field(s, off, w), j) == BlockBit(s, off + j)
    decreases w
  {
    hide BlockBit, Pow2, Bit;
    BitCons(BlockBit(s, off), Field(s, off + 1, w - 1), j);
    if j > 0 { FieldBit(s, off + 1, w - 1, j - 1); }
  }

  /** Equal bits give equal fields. */
  lemma {:induction false} SameField(s: seq<byte>, t: seq<byte>, off: nat, w: nat)
    requires off + w <= 8 * |s| && off + w <= 8 * |t|
    requires forall j: nat :: off <= j < off + w ==> BlockBit(s, j) == BlockBit(t, j)
    ensures Field(s, off, w) == Field(t, off, w)
    decreases w
  {
    if w > 0 { SameField(s, t, off + 1, w - 1); }
  }

  lemma {:induction false} FieldShift(bytes: seq<byte>, start: nat, n: nat, off: nat, w: nat)
    requires start + n <= |bytes| && off + w <= 8 * n
    ensures Field(bytes[start..start + n], off, w) == Field(bytes, 8 * start + off, w)
    decreases w
  {
    hide BlockBit, Pow2;
    if w > 0 {
      FieldShift(bytes, start, n, off + 1, w - 1);
      BitShift(bytes, start, n, off);
    }
  }

  lemma BitShift(bytes: seq<byte>, start: nat, n: nat, off: nat)
    requires start + n <= |bytes| && off < 8 * n
    ensures BlockBit(bytes[start..start + n], off) == BlockBit(bytes, 8 * start + off)
  {
    hide Bit;
    assert (8 * start + off) / 8 == start + off / 8 && (8 * start + off) % 8 == off % 8;
  }

  // ---- Writing one code into the block (output) and reading one (getcode) ----

  /** output's stores: the byte at the offset keeps its low r bits and takes the first
      bits of the code, then a whole middle byte if there is one, then the bits left. */
  function PutCode(buf: seq<byte>, off: nat, w: nat, code: nat): (r: seq<byte>)
    requires |buf| == BITS && INIT_BITS <= w <= BITS && off + w <= 8 * w
    ensures |r| == BITS
  {
    var q, r := off / 8, off % 8;
    var b1 := buf[q := FirstByte(buf[q], r, code)];
    PutRest(b1, q + 1, w - (8 - r), Shr(code, 8 - r))
  }

  /** (old & rmask[r]) | ((code << r) & lmask[r]), as a char */
  function FirstByte(old_: byte, r: nat, code: nat): byte
    requires r < 8
  {
    assert Pow2(8) == 256;
    assert Mask(old_, r) < Pow2(8) by { Pow2Le(r, 8); }
    OrBound(Mask(old_, r), Mask(Shl(code, r), 8), 8);
    Or(Mask(old_, r), Mask(Shl(code, r), 8))
  }

  lemma {:induction false} Pow2Le(a: nat, b: nat)
    requires a <= b
    ensures Pow2(a) <= Pow2(b)
  {
    if a < b { Pow2Le(a, b - 1); }
  }

  function Char(x: nat): byte
  {
    assert Pow2(8) == 256;
    Mask(x, 8)
  }

  function PutRest(buf: seq<byte>, q: nat, bits: nat, code: nat): (r: seq<byte>)
    requires |buf| == BITS && 0 < bits < 16 && 8 * q + bits <= 8 * BITS
    ensures |r| == BITS
  {
    if bits >= 8 then
      var b := buf[q := Char(code)];
      if bits - 8 > 0 then b[q + 1 := Char(Shr(code, 8))] else b
    else
      buf[q := Char(code)]
  }

  /** getcode's loads.  When no bits are left the last load is masked to nothing; it is
      skipped here because at width 16 it would lie one past the block. */
  function GetBits(buf: seq<byte>, off: nat, w: nat): nat
    requires |buf| == BITS && INIT_BITS <= w <= BITS && off + w <= 8 * BITS
  {
    var q, r := off / 8, off % 8;
    var first := Shr(buf[q], r);
    var bits := w - (8 - r);
    if bits >= 8 then
      var mid := Or(first, Shl(buf[q + 1], 8 - r));
      if bits - 8 > 0 then Or(mid, Shl(Mask(buf[q + 2], bits - 8), 16 - r)) else mid
    else
      Or(first, Shl(Mask(buf[q + 1], bits), 8 - r))
  }

  /** After output stores a code, its bits are in place and no earlier bit has changed. */
  lemma PutCodeBit(buf: seq<byte>, off: nat, w: nat, code: nat, j: nat)
    requires |buf| == BITS && INIT_BITS <= w <= BITS && off + w <= 8 * w
    requires j < off + w
    ensures BlockBit(PutCode(buf, off, w, code), j) ==
            if j < off then BlockBit(buf, j) else Bit(code, j - off)
  {
    hide Bit, Or, Shl, Shr, Mask;
    var q, r := off / 8, off % 8;
    var c1 := Shr(code, 8 - r);
    var i, k := j / 8, j % 8;
    if i == q {
      BitOr(Mask(buf[q], r), Mask(Shl(code, r), 8), k);
      BitMask(buf[q], r, k);
      BitMask(Shl(code, r), 8, k);
      BitShl(code, r, k);
    } else if i == q + 1 {
      BitMask(c1, 8, k);
      BitShr(code, 8 - r, k);
    } else if i == q + 2 {
      BitMask(Shr(c1, 8), 8, k);
      BitShr(c1, 8, k);
      BitShr(code, 8 - r, k + 8);
    }
  }

  lemma PutCodeField(buf: seq<byte>, off: nat, w: nat, code: nat)
    requires |buf| == BITS && INIT_BITS <= w <= BITS && off + w <= 8 * w
    requires code < Pow2(w)
    ensures Field(PutCode(buf, off, w, code), off, w) == code
    ensures forall o: nat, v: nat :: o + v <= off ==> Field(PutCode(buf, off, w, code), o, v) == Field(buf, o, v)
  {
    var t := PutCode(buf, off, w, code);
    forall j: nat | j < off + w
      ensures BlockBit(t, j) == if j < off then BlockBit(buf, j) else Bit(code, j - off)
    {
      PutCodeBit(buf, off, w, code, j);
    }
    forall j: nat | j < w ensures Bit(Field(t, off, w), j) == Bit(code, j) { FieldBit(t, off, w, j); }
    SameBits(Field(t, off, w), code, w);
    forall o: nat, v: nat | o + v <= off ensures Field(t, o, v) == Field(buf, o, v) { SameField(t, buf, o, v); }
  }

  /** Bits of lo | (hi << a) when lo has no bits from a on. */
  lemma JoinBit(lo: nat, hi: nat, a: nat, j: nat)
    requires j >= a ==> !Bit(lo, j)
    ensures Bit(Or(lo, Shl(hi, a)), j) == if j < a then Bit(lo, j) else Bit(hi, j - a)
  {
    BitOr(lo, Shl(hi, a), j);
    BitShl(hi, a, j);
  }

  lemma ByteBit(b: byte, j: nat)
    ensures Bit(b, j) ==> j < 8
  {
    assert Pow2(8) == 256;
    if j >= 8 { BitHigh(b, 8, j); }
  }

  /** The first load and the middle one put together. */
  lemma GetTwo(buf: seq<byte>, q: nat, r: nat, hi: byte, j: nat)
    requires r < 8 && q < |buf|
    ensures Bit(Or(Shr(buf[q], r), Shl(hi, 8 - r)), j) ==
            if j < 8 - r then Bit(buf[q], j + r) else j < 16 - r && Bit(hi, j - (8 - r))
  {
    BitShr(buf[q], r, j);
    ByteBit(buf[q], j + r);
    JoinBit(Shr(buf[q], r), hi, 8 - r, j);
    if j >= 8 - r { ByteBit(hi, j - (8 - r)); }
  }

  /** Bit k counted from byte q, for the three bytes a code can touch. */
  predicate NearBit(buf: seq<byte>, q: nat, k: nat)
    requires q + k / 8 < |buf|
  {
    Bit(buf[q + k / 8], k % 8)
  }

  lemma GetTwoBytes(buf: seq<byte>, q: nat, r: nat, bits: nat, j: nat)
    requires r < 8 && 0 < bits < 8 && q + 1 < |buf|
    ensures Bit(Or(Shr(buf[q], r), Shl(Mask(buf[q + 1], bits), 8 - r)), j) ==
            (j < 8 - r + bits && NearBit(buf, q, r + j))
  {
    hide Bit, Or, Shl, Shr;
    Pow2Le(bits, 8);
    assert Pow2(8) == 256;
    GetTwo(buf, q, r, Mask(buf[q + 1], bits), j);
    if j >= 8 - r { BitMask(buf[q + 1], bits, j - (8 - r)); }
  }

  lemma GetThreeBytes(buf: seq<byte>, q: nat, r: nat, bits: nat, j: nat)
    requires r < 8 && bits < 8 && q + 2 < |buf|
    ensures Bit(Or(Or(Shr(buf[q], r), Shl(buf[q + 1], 8 - r)), Shl(Mask(buf[q + 2], bits), 16 - r)), j) ==
            (j < 16 - r + bits && NearBit(buf, q, r + j))
  {
    hide Bit, Or, Shl, Shr, Mask;
    GetTwo(buf, q, r, buf[q + 1], j);
    JoinBit(Or(Shr(buf[q], r), Shl(buf[q + 1], 8 - r)), Mask(buf[q + 2], bits), 16 - r, j);
    if j >= 16 - r { BitMask(buf[q + 2], bits, j - (16 - r)); }
  }

  lemma GetBitsBit(buf: seq<byte>, off: nat, w: nat, j: nat)
    requires |buf| == BITS && INIT_BITS <= w <= BITS && off + w <= 8 * BITS
    ensures Bit(GetBits(buf, off, w), j) == (j < w && BlockBit(buf, off + j))
  {
    hide Bit, Or, Shl, Shr, Mask;
    var q, r := off / 8, off % 8;
    var bits := w - (8 - r);
    assert (off + j) / 8 == q + (r + j) / 8 && (off + j) % 8 == (r + j) % 8;
    if bits > 8 {
      GetThreeBytes(buf, q, r, bits - 8, j);
    } else if bits == 8 {
      GetTwo(buf, q, r, buf[q + 1], j);
    } else {
      GetTwoBytes(buf, q, r, bits, j);
    }
  }

  lemma {:induction false} NoBitsAbove(x: nat, k: nat)
    requires forall j: nat :: j >= k ==> !Bit(x, j)
    ensures x < Pow2(k)
    decreases k, x
  {
    if k > 0 {
      forall j: nat | j >= k - 1 ensures !Bit(x / 2, j) { assert !Bit(x, j + 1); }
      NoBitsAbove(x / 2, k - 1);
    } else if x > 0 {
      assert !Bit(x, 0);
      forall j: nat ensures !Bit(x / 2, j) { assert !Bit(x, j + 1); }
      NoBitsAbove(x / 2, 0);
    }
  }

  /** getcode reads exactly the field at its offset. */
  lemma GetBitsIsField(buf: seq<byte>, off: nat, w: nat)
    requires |buf| == BITS && INIT_BITS <= w <= BITS && off + w <= 8 * BITS
    ensures GetBits(buf, off, w) == Field(buf, off, w)
  {
    var x := GetBits(buf, off, w);
    forall j: nat ensures Bit(x, j) == (j < w && BlockBit(buf, off + j)) { GetBitsBit(buf, off, w, j); }
    NoBitsAbove(x, w);
    forall j: nat | j < w ensures Bit(Field(buf, off, w), j) == Bit(x, j) { FieldBit(buf, off, w, j); }
    SameBits(x, Field(buf, off, w), w);
  }
}
