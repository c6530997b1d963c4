/**
 The first pass of decomp16: it reads the codes of a compressed file and finds their widths
 from the size of the dictionary, as compress does.
 */
module D16Top {
  import opened LzwBits
  import opened LzwSpec
  import opened D16Meaning
  import opened D16Stage
  import opened D16Bits

  /** Bits from here to the end of a group of eight codes. */
  function Skip(inmod: nat, w: nat): nat
    requires inmod < 8
  {
    if inmod == 0 then 0 else (8 - inmod) * w
  }

  // ---- the codes the first pass finds in any bytes ----

  /** Where it stands before a code: the width in use, the place in the group of eight codes and
      the next bit. */
  datatype Seek = Seek(w: nat, inmod: nat, at: nat)

  predicate SeekOk(p: Params, s: Seek) { INIT_BITS <= s.w <= p.maxbits && s.inmod < 8 }

  const FIRST_SEEK := Seek(INIT_BITS, 0, 0)

  /** Where it looks for the code: when the dictionary has outgrown the width, the rest of the
      group is skipped and the width grows. */
  function Sought(p: Params, s: Seek, d: Dst): (s': Seek)
    requires SeekOk(p, s)
    ensures SeekOk(p, s') && s'.at >= s.at
  {
    if s.w < p.maxbits && Pow2(s.w) <= EndOf(p.Max(), d) then Seek(s.w + 1, 0, s.at + Skip(s.inmod, s.w)) else s
  }

  /** Where it stands after the code: past the rest of the group if the code is CLEAR. */
  function Passed(p: Params, s: Seek, code: nat): (s': Seek)
    requires p.Ok() && SeekOk(p, s)
    ensures SeekOk(p, s') && s'.at >= s.at + s.w
  {
    var m := (s.inmod + 1) % 8;
    if p.block && code == CLEAR then Seek(INIT_BITS, 0, s.at + s.w + Skip(m, s.w)) else Seek(s.w, m, s.at + s.w)
  }

  function Codes(p: Params, bytes: seq<byte>, s: Seek, d: Dst): seq<Sym>
    requires p.Ok() && SeekOk(p, s)
    decreases 8 * |bytes| - s.at
  {
    var s1 := Sought(p, s, d);
    if s1.at + s1.w > 8 * |bytes| then [] else
    var sym := Sym(Field(bytes, s1.at, s1.w), false);
    [sym] + Codes(p, bytes, Passed(p, s1, sym.index), Take(p, p.Max(), d, sym))
  }

  function FirstCodes(p: Params, bytes: seq<byte>): seq<Sym>
    requires p.Ok()
  {
    Codes(p, bytes, FIRST_SEEK, Dst0(p))
  }

  // ---- the main loop ----

  ghost function Here(bits: BitReader, w: nat): Seek
    reads bits
    requires bits.Valid()
  {
    Seek(w, bits.inmod, bits.At())
  }

  /** Skip the rest of a group; at the end of the file the program exits. */
  method SkipGroup(bits: BitReader, w: nat) returns (ok: bool)
    requires bits.Valid() && INIT_BITS <= w <= BITS
    modifies bits
    ensures ok <==> old(bits.At()) + Skip(old(bits.inmod), w) <= 8 * |bits.bytes|
    ensures ok ==> bits.Valid() && bits.inmod == 0 && bits.At() == old(bits.At()) + Skip(old(bits.inmod), w)
  {
    hide BitReader.Valid, BitReader.At, LzwBits.Field, Skip;
    Inside(bits);
    SkipNone(w);
    while bits.inmod != 0
      invariant bits.Valid() && bits.inmod < 8 && bits.At() <= 8 * |bits.bytes|
      invariant bits.At() + Skip(bits.inmod, w) == old(bits.At()) + Skip(old(bits.inmod), w)
      decreases if bits.inmod == 0 then 0 else 8 - bits.inmod
    {
      SkipLess(bits.inmod, w);
      var index;
      ok, index := bits.GetBits(w);
      if !ok { return; }
    }
    ok := true;
  }

  lemma Inside(bits: BitReader)
    requires bits.Valid()
    ensures bits.inmod < 8 && bits.At() <= 8 * |bits.bytes|
  {
  }

  lemma SkipNone(w: nat)
    ensures Skip(0, w) == 0
  {
  }

  lemma SkipLess(inmod: nat, w: nat)
    requires 0 < inmod < 8
    ensures Skip(inmod, w) == w + Skip((inmod + 1) % 8, w)
    ensures (inmod + 1) % 8 == if inmod == 7 then 0 else inmod + 1
  {
  }

  /** Widen the code if the dictionary has outgrown it. */
  method Widen(p: Params, bits: BitReader, curend: int, w: nat, ghost d: Dst) returns (ok: bool, w': nat)
    requires p.Ok() && bits.Valid() && SeekOk(p, Here(bits, w)) && curend == EndOf(p.Max(), d)
    modifies bits
    ensures ok <==> Sought(p, old(Here(bits, w)), d).at <= 8 * |bits.bytes|
    ensures ok ==> bits.Valid() && Here(bits, w') == Sought(p, old(Here(bits, w)), d)
  {
    hide LzwBits.Field, BitReader.Valid, BitReader.At, EndOf, Skip;
    Inside(bits);
    ok, w' := true, w;
    if w < p.maxbits && Pow2(w) <= curend {
      ok := SkipGroup(bits, w);
      w' := w + 1;
    }
  }

  /** The next code. */
  method ReadCode(p: Params, bits: BitReader, curend: int, w: nat, ghost d: Dst) returns (ok: bool, index: nat, w': nat)
    requires p.Ok() && bits.Valid() && SeekOk(p, Here(bits, w)) && curend == EndOf(p.Max(), d)
    modifies bits
    ensures var s := Sought(p, old(Here(bits, w)), d);
            && (ok <==> s.at + s.w <= 8 * |bits.bytes|)
            && (ok ==> && bits.Valid() && index == Field(bits.bytes, s.at, s.w)
                       && Here(bits, w') == Seek(s.w, (s.inmod + 1) % 8, s.at + s.w))
  {
    hide LzwBits.Field, BitReader.Valid, BitReader.At, EndOf, Skip, Sought;
    index := 0;
    ok, w' := Widen(p, bits, curend, w, d);
    if ok { ok, index := bits.GetBits(w'); }
  }

  /** After CLEAR the rest of its group is skipped and the width starts over. */
  method Advance(p: Params, bits: BitReader, w: nat, index: nat, ghost s: Seek) returns (ok: bool, w': nat)
    requires p.Ok() && bits.Valid() && SeekOk(p, s) && Here(bits, w) == Seek(s.w, (s.inmod + 1) % 8, s.at + s.w)
    modifies bits
    ensures ok <==> Passed(p, s, index).at <= 8 * |bits.bytes|
    ensures ok ==> bits.Valid() && Here(bits, w') == Passed(p, s, index)
  {
    hide LzwBits.Field, BitReader.Valid, BitReader.At, Skip;
    Inside(bits);
    ok, w' := true, w;
    if index == CLEAR && p.block {
      ok := SkipGroup(bits, w);
      w' := INIT_BITS;
    }
  }

  lemma NoneLeft(p: Params, bytes: seq<byte>, s: Seek, d: Dst)
    requires p.Ok() && SeekOk(p, s) && s.at > 8 * |bytes|
    ensures Codes(p, bytes, s, d) == []
  {
  }

  /** The codes found so far, the next one and those after it. */
  lemma OneMore(p: Params, bytes: seq<byte>, done: seq<Sym>, s: Seek, d: Dst)
    requires p.Ok() && SeekOk(p, s) && FirstCodes(p, bytes) == done + Codes(p, bytes, s, d)
    requires Good(p, p.Max(), FirstCodes(p, bytes)) && d == Means(p, p.Max(), done)
    ensures var s1 := Sought(p, s, d);
            if s1.at + s1.w > 8 * |bytes| then FirstCodes(p, bytes) == done else
            var sym := Sym(Field(bytes, s1.at, s1.w), false);
            && SymOk(p, p.Max(), d, sym) && Take(p, p.Max(), d, sym) == Means(p, p.Max(), done + [sym])
            && FirstCodes(p, bytes) == done + [sym] + Codes(p, bytes, Passed(p, s1, sym.index),
               Take(p, p.Max(), d, sym))
  {
    hide FirstCodes, Means, Sought, Passed, SymOk, Take, LzwBits.Field;
    var s1 := Sought(p, s, d);
    if s1.at + s1.w <= 8 * |bytes| {
      var sym := Sym(Field(bytes, s1.at, s1.w), false);
      var all := FirstCodes(p, bytes);
      assert all[|done|] == sym && all[..|done|] == done;
      MeansSnoc(p, p.Max(), done, sym);
    }
  }

  lemma TopStart(p: Params)
    requires p.Ok()
    ensures Means(p, p.Max(), []) == Dst0(p) && Cap(p, 5) == p.Max()
  {
    CapsOk(p, 4);
  }

  /** One turn of the main loop. */
  method Turn(stage: Stage, bits: BitReader, w: nat, ghost done: seq<Sym>)
    returns (more: bool, w': nat, ghost done': seq<Sym>)
    requires stage.Valid() && stage.pnum == 4 && stage.p.Ok() && stage.d == Means(stage.p, stage.p.Max(), done)
    requires bits.Valid() && SeekOk(stage.p, Here(bits, w))
    requires Good(stage.p, stage.p.Max(), FirstCodes(stage.p, bits.bytes))
    requires FirstCodes(stage.p, bits.bytes) == done + Codes(stage.p, bits.bytes, Here(bits, w), stage.d)
    modifies stage, stage.dindex, stage.dchar, bits
    ensures stage.Valid() && stage.d == Means(stage.p, stage.p.Max(), done')
    ensures !more ==> FirstCodes(stage.p, bits.bytes) == done'
    ensures more ==> && |done'| == |done| + 1 && bits.Valid() && SeekOk(stage.p, Here(bits, w'))
                     && FirstCodes(stage.p, bits.bytes) == done' + Codes(stage.p, bits.bytes, Here(bits, w'), stage.d)
  {
    hide Good, Means, SymOk, Take, Cap, Stage.Valid, BitReader.Valid, BitReader.At, EndOf, Codes, Sought, Passed,
         FirstCodes, LzwBits.Field;
    var p := stage.p;
    ghost var s, d := Here(bits, w), stage.d;
    TopStart(p);
    OneMore(p, bits.bytes, done, s, d);
    CurEnd(stage);
    ghost var s1 := Sought(p, s, d);
    var index;
    done' := done;
    more, index, w' := ReadCode(p, bits, stage.curend, w, d);
    if !more { return; }
    stage.TakeWhole(index);
    more, w' := Advance(p, bits, w', index, s1);
    done' := done + [Sym(index, false)];
    if !more { NoneLeft(p, bits.bytes, Passed(p, s1, index), stage.d); }
  }

  /** The main loop of the first pass takes the codes it finds, on any bytes whose codes all stand
      for something. */
  method RunTop(stage: Stage, bits: BitReader)
    requires stage.Valid() && stage.pnum == 4 && stage.p.Ok() && stage.d == Dst0(stage.p)
    requires bits.Valid() && Here(bits, INIT_BITS) == FIRST_SEEK
    requires Good(stage.p, stage.p.Max(), FirstCodes(stage.p, bits.bytes))
    modifies stage, stage.dindex, stage.dchar, bits
    ensures stage.Valid() && stage.d == Means(stage.p, stage.p.Max(), FirstCodes(stage.p, bits.bytes))
  {
    hide Good, Means, Stage.Valid, BitReader.Valid, BitReader.At, Codes;
    var p := stage.p;
    TopStart(p);
    var w, more := INIT_BITS, true;
    ghost var done: seq<Sym> := [];
    ghost var codes := FirstCodes(p, bits.bytes);
    assert codes == done + Codes(p, bits.bytes, Here(bits, w), stage.d);
    hide FirstCodes;
    while more
      invariant stage.Valid() && stage.d == Means(p, p.Max(), done)
      invariant if more then && bits.Valid() && SeekOk(p, Here(bits, w))
                             && codes == done + Codes(p, bits.bytes, Here(bits, w), stage.d)
                else codes == done
      decreases more, |codes| - |done|
    {
      more, w, done := Turn(stage, bits, w, done);
    }
  }

  lemma CurEnd(stage: Stage)
    requires stage.Valid()
    ensures stage.curend == EndOf(Cap(stage.p, stage.pnum + 1), stage.d)
  {
  }
}
