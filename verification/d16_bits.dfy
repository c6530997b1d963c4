/**
 The bit reader of decomp16's first pass, which takes codes of a varying width from the bytes
 one after the other and carries the bits left over.
 */
module D16Bits {
  import opened LzwBits

  lemma {:induction false} ShrBound(x: nat, k: nat, n: nat)
    requires x < Pow2(n + k)
    ensures Shr(x, k) < Pow2(n)
    decreases k
  {
    if k > 0 {
      assert Pow2(n + k) == 2 * Pow2(n + k - 1);
      ShrBound(x / 2, k - 1, n);
    }
  }

  /** lo | ((hi << a) & mask w): the bits of lo, then those of hi, w in all. */
  lemma MaskedBit(lo: nat, hi: nat, a: nat, w: nat, j: nat)
    requires lo < Pow2(a) && a <= w && j < w
    ensures Bit(Or(lo, Mask(Shl(hi, a), w)), j) == if j < a then Bit(lo, j) else Bit(hi, j - a)
  {
    BitOr(lo, Mask(Shl(hi, a), w), j);
    BitMask(Shl(hi, a), w, j);
    BitShl(hi, a, j);
    if j >= a { BitHigh(lo, a, j); }
  }

  lemma MaskedBound(lo: nat, x: nat, a: nat, w: nat)
    requires lo < Pow2(a) && a <= w
    ensures Or(lo, Mask(x, w)) < Pow2(w)
  {
    Pow2Le(a, w);
    OrBound(lo, Mask(x, w), w);
  }

  class BitReader {
    const bytes: seq<byte>
    var pos: nat
    var curbyte: nat
    var left: nat
    var inmod: nat

    /** The bits left over are the last ones of the byte before pos. */
    ghost predicate Valid()
      reads this
    {
      && pos <= |bytes| && left < 8 && inmod < 8 && (left > 0 ==> pos > 0) && curbyte < Pow2(left)
      && forall j: nat :: j < left ==> Bit(curbyte, j) == Bit(bytes[pos - 1], 8 - left + j)
    }

    /** The bit that comes next. */
    ghost function At(): int
      reads this`pos, this`left
    {
      8 * pos - left
    }

    constructor (bytes: seq<byte>)
      ensures this.bytes == bytes && Valid() && At() == 0 && inmod == 0
    {
      this.bytes := bytes;
      pos, curbyte, left, inmod := 0, 0, 0, 0;
    }

    /** getbits: the next w bits; at the end of the file the program exits. */
    method GetBits(w: nat) returns (ok: bool, index: nat)
      requires Valid() && INIT_BITS <= w <= BITS
      modifies this
      ensures ok <==> old(At()) + w <= 8 * |bytes|
      ensures ok ==> Valid() && At() == old(At()) + w && inmod == (old(inmod) + 1) % 8
      ensures ok ==> old(At()) >= 0 && index == Field(bytes, old(At()), w)
    {
      hide Bit, Pow2, Or, Mask, Shl, Shr, Field;
      ghost var at := At();
      inmod := (inmod + 1) % 8;
      index := curbyte;
      var have := left;
      Carried();
      if w - have > 8 {
        if pos >= |bytes| { return false, 0; }
        ByteJoin(bytes, at, curbyte, left, pos);
        index := Or(index, Shl(bytes[pos], have));
        pos, have := pos + 1, have + 8;
      }
      if pos >= |bytes| { return false, 0; }
      var b := bytes[pos];
      LastJoin(bytes, at, index, have, pos, w);
      index := Or(index, Mask(Shl(b, have), w));
      LeftOver(b, w - have);
      curbyte := Shr(b, w - have);
      left := 8 - (w - have);
      pos := pos + 1;
      ok := true;
    }

    lemma Carried()
      requires Valid()
      ensures Part(bytes, At(), curbyte, left) && At() + left == 8 * pos
    {
      hide Bit, Pow2;
      forall j: nat | j < left ensures Bit(curbyte, j) == BlockBit(bytes, At() + j) { BitPlace(pos, left, j); }
    }
  }

  lemma BitPlace(pos: nat, left: nat, j: nat)
    requires pos > 0 && j < left < 8
    ensures (8 * pos - left + j) / 8 == pos - 1 && (8 * pos - left + j) % 8 == 8 - left + j
  {
  }

  /** index holds the n bits from bit at on. */
  ghost predicate Part(bytes: seq<byte>, at: int, index: nat, n: nat) {
    && 0 <= at && at + n <= 8 * |bytes| && index < Pow2(n)
    && forall j: nat :: j < n ==> Bit(index, j) == BlockBit(bytes, at + j)
  }

  lemma ByteJoin(bytes: seq<byte>, at: int, index: nat, n: nat, pos: nat)
    requires Part(bytes, at, index, n) && at + n == 8 * pos && pos < |bytes|
    ensures Part(bytes, at, Or(index, Shl(bytes[pos], n)), n + 8)
  {
    var b := bytes[pos];
    assert Pow2(8) == 256;
    ShlBound(b, n, 8);
    Pow2Le(n, n + 8);
    OrBound(index, Shl(b, n), n + 8);
    forall j: nat | j < n + 8 ensures Bit(Or(index, Shl(b, n)), j) == BlockBit(bytes, at + j) {
      if j >= n { BitHigh(index, n, j); }
      JoinBit(index, b, n, j);
    }
  }

  lemma LastJoin(bytes: seq<byte>, at: int, index: nat, n: nat, pos: nat, w: nat)
    requires Part(bytes, at, index, n) && at + n == 8 * pos && pos < |bytes| && n <= w <= n + 8
    ensures at + w <= 8 * |bytes| && Or(index, Mask(Shl(bytes[pos], n), w)) == Field(bytes, at, w)
  {
    hide Bit, Or, Shl, Mask, Field;
    var b := bytes[pos];
    var x := Or(index, Mask(Shl(b, n), w));
    MaskedBound(index, Shl(b, n), n, w);
    forall j: nat | j < w ensures Bit(x, j) == Bit(Field(bytes, at, w), j) {
      MaskedBit(index, b, n, w, j);
      FieldBit(bytes, at, w, j);
    }
    SameBits(x, Field(bytes, at, w), w);
  }

  /** What is left of a byte after k of its bits. */
  lemma LeftOver(b: byte, k: nat)
    requires k <= 8
    ensures Shr(b, k) < Pow2(8 - k) && forall j: nat :: j < 8 - k ==> Bit(Shr(b, k), j) == Bit(b, k + j)
  {
    assert Pow2(8) == 256;
    ShrBound(b, k, 8 - k);
    forall j: nat | j < 8 - k ensures Bit(Shr(b, k), j) == Bit(b, k + j) { BitShr(b, k, j); }
  }
}
