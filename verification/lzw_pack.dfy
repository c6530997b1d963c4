/**
 Every stream of items can be packed into bytes.
 */
module LzwPack {
  import opened LzwBits
  import opened LzwSpec

  /** The bit of the file where code i begins. */
  ghost function Place(p: Params, items: seq<Item>, i: nat): nat
    requires i <= |items|
  {
    8 * After(p, items[..i]).start + After(p, items[..i]).off
  }

  ghost function Width(p: Params, items: seq<Item>, i: nat): nat
    requires i <= |items|
  {
    After(p, items[..i]).w
  }

  ghost predicate Covers(p: Params, items: seq<Item>, i: nat, b: nat)
    requires i < |items|
  {
    Place(p, items, i) <= b < Place(p, items, i) + Width(p, items, i)
  }

  /** Bit b is a bit of some code, and set. */
  ghost predicate Wanted(p: Params, items: seq<Item>, b: nat) {
    exists i: nat :: i < |items| && Covers(p, items, i, b) && Bit(CodeOf(items[i]), b - Place(p, items, i))
  }

  ghost function Gather(p: Params, items: seq<Item>, b: nat, k: nat): (x: nat)
    ensures x < Pow2(k)
    decreases k
  {
    if k == 0 then 0 else (if Wanted(p, items, b) then 1 else 0) + 2 * Gather(p, items, b + 1, k - 1)
  }

  lemma {:induction false} GatherBit(p: Params, items: seq<Item>, b: nat, k: nat, j: nat)
    requires j < k
    ensures Bit(Gather(p, items, b, k), j) == Wanted(p, items, b + j)
    decreases k
  {
    hide Wanted;
    if j > 0 { GatherBit(p, items, b + 1, k - 1, j - 1); }
  }

  ghost function Bytes(p: Params, items: seq<Item>): seq<byte> {
    var e := After(p, items);
    assert Pow2(8) == 256;
    seq(e.start + Ceil8(e.off), k requires 0 <= k => Gather(p, items, 8 * k, 8))
  }

  lemma BytesBit(p: Params, items: seq<Item>, b: nat)
    requires b < 8 * |Bytes(p, items)|
    ensures BlockBit(Bytes(p, items), b) == Wanted(p, items, b)
  {
    hide Wanted, Gather, After, Bit;
    GatherBit(p, items, 8 * (b / 8), 8, b % 8);
  }

  lemma {:induction false} PlacesGrow(p: Params, items: seq<Item>, i: nat, k: nat)
    requires p.Ok() && i < k <= |items|
    ensures Place(p, items, i) + Width(p, items, i) <= Place(p, items, k)
    decreases k
  {
    hide After;
    AfterSnoc(p, items, k - 1);
    SaneAfter(p, items[..k - 1]);
    if i < k - 1 { PlacesGrow(p, items, i, k - 1); }
  }

  /** Codes do not overlap. */
  lemma OneCode(p: Params, items: seq<Item>, i: nat, b: nat)
    requires p.Ok() && i < |items| && Covers(p, items, i, b)
    ensures Wanted(p, items, b) == Bit(CodeOf(items[i]), b - Place(p, items, i))
  {
    hide Place, Width, Bit;
    forall k: nat | k < |items| && k != i ensures !Covers(p, items, k, b) {
      if k < i { PlacesGrow(p, items, k, i); } else { PlacesGrow(p, items, i, k); }
    }
  }

  lemma CodeRoom(p: Params, items: seq<Item>, i: nat)
    requires p.Ok() && Valid(p, items) && i < |items|
    ensures CodeOf(items[i]) < Pow2(Width(p, items, i))
    ensures Place(p, items, i) + Width(p, items, i) <= 8 * |Bytes(p, items)|
  {
    hide After, Gather, LzwBits.Pow2;
    var it := items[i];
    assert ValidItem(p, After(p, items[..i]), it);
    PlacesGrow(p, items, i, |items|);
    assert items[..|items|] == items;
    match it {
      case Code(c, s) => CodeFits(p, items[..i], s[0], c);
      case Clear => CodeFits(p, items[..i], 0, 0);
    }
  }

  lemma CodeThere(p: Params, items: seq<Item>, i: nat)
    requires p.Ok() && Valid(p, items) && i < |items|
    ensures CodeAt(Bytes(p, items), After(p, items[..i]), CodeOf(items[i]))
  {
    hide After, Bytes, Valid, Wanted, Gather, Bit, BlockBit, LzwBits.Pow2, LzwBits.Field;
    CodeRoom(p, items, i);
    SaneAfter(p, items[..i]);
    var bytes, at, w, code := Bytes(p, items), Place(p, items, i), Width(p, items, i), CodeOf(items[i]);
    forall j: nat | j < w ensures Bit(Field(bytes, at, w), j) == Bit(code, j) {
      FieldBit(bytes, at, w, j);
      BytesBit(p, items, at + j);
      OneCode(p, items, i, at + j);
    }
    SameBits(Field(bytes, at, w), code, w);
    var st := After(p, items[..i]);
    FieldShift(bytes, st.start, Min(st.w, |bytes| - st.start), st.off, st.w);
  }

  /** Every valid stream of items is packed in some bytes. */
  lemma CanPack(p: Params, items: seq<Item>)
    requires p.Ok() && Valid(p, items)
    ensures Packed(p, items, Bytes(p, items))
  {
    hide After, Valid, CodeAt, Gather;
    forall i: nat | i < |items| ensures CodeAt(Bytes(p, items), After(p, items[..i]), CodeOf(items[i])) {
      CodeThere(p, items, i);
    }
  }
}
