/**
 When the first pass of decomp16 follows the widths of compress: it looks for every code where
 compress put it, or, with a limit of 9 bits, until the dictionary is full.
 */
module D16Step {
  import opened LzwBits
  import opened LzwSpec
  import opened D16Meaning
  import opened D16Stage
  import opened D16Top

  // ---- in step with compress ----

  /** Before a code is sought: at st, or with the rest of a group still to be skipped because the
      width is about to grow. */
  ghost predicate Head(p: Params, st: St, s: Seek)
    requires s.inmod < 8
  {
    if st.w == s.w then s.at == 8 * st.start + st.off && s.inmod * s.w == st.off
    else st.w == s.w + 1 && st.off == 0 && |st.dict| > p.MaxCode(s.w) && s.at + Skip(s.inmod, s.w) == 8 * st.start
  }

  /** The code is looked for where compress wrote it, at the width it wrote it with. */
  ghost predicate At(st: St, s: Seek) { s.w == st.w && s.at == 8 * st.start + st.off }

  /** The dictionary fits the code width. */
  ghost predicate Fitting(p: Params, st: St) {
    INIT_BITS <= st.w <= p.maxbits && |st.dict| <= p.MaxCode(st.w)
  }

  lemma FittingStep(p: Params, st: St, it: Item)
    requires p.Ok() && Fitting(p, st) && Sane(p, st) && (p.maxbits >= 10 || |Step(p, st, it).dict| < 512)
    ensures Fitting(p, Step(p, st, it))
  {
    MaxBounds(p);
    Pow2Le(9, st.w);
    assert Pow2(9) == 512;
  }

  /** The test for a wider code agrees with compress. */
  lemma WidthTest(p: Params, st: St, d: Dst, s: Seek)
    requires p.Ok() && Sane(p, st) && Fitting(p, st) && Agrees(p, st, d) && DstOk(p, d)
    requires SeekOk(p, s) && Head(p, st, s)
    ensures At(st, Sought(p, s, d)) && Sought(p, s, d).inmod * st.w == st.off
  {
    MaxBounds(p);
    Pow2Le(9, s.w);
    assert Pow2(9) == 512;
    if s.w < p.maxbits { Pow2Le(s.w, p.maxbits - 1); }
  }

  /** Where the next code is looked for after an item has been read. */
  lemma HeadNext(p: Params, st: St, it: Item, s: Seek)
    requires p.Ok() && Sane(p, st) && SeekOk(p, s) && At(st, s) && s.inmod * st.w == st.off
    requires it.Clear? <==> p.block && CodeOf(it) == CLEAR
    ensures Head(p, Step(p, st, it), Passed(p, s, CodeOf(it)))
  {
    hide LzwBits.Pow2, Params.MaxCode;
    Eighth(s.inmod, st.w);
  }

  lemma Eighth(k: nat, w: nat)
    requires k < 8
    ensures k * w == (if k == 0 then 0 else if k == 1 then w else if k == 2 then 2 * w else if k == 3 then 3 * w
                      else if k == 4 then 4 * w else if k == 5 then 5 * w else if k == 6 then 6 * w else 7 * w)
    ensures (k + 1) * w == k * w + w && (8 - (k + 1)) * w == 8 * w - (k * w + w)
  {
  }

  // ---- codes as fields of the whole file ----

  lemma CodeRead(bytes: seq<byte>, st: St, code: nat)
    requires CodeAt(bytes, st, code)
    ensures 8 * st.start + st.off + st.w <= 8 * |bytes| && Field(bytes, 8 * st.start + st.off, st.w) == code
  {
    var n := Min(st.w, |bytes| - st.start);
    FieldShift(bytes, st.start, n, st.off, st.w);
  }

  // ---- the codes of a compressed file ----

  /** What is known after t items. */
  lemma CodesTaken(p: Params, items: seq<Item>, t: nat)
    requires p.Ok() && Valid(p, items) && t <= |items|
    ensures var st, d := After(p, items[..t]), Means(p, p.Max(), CodeSyms(items)[..t]);
            && Sane(p, st) && |st.dict| <= p.MaxCode(st.w) && Agrees(p, st, d) && DstOk(p, d)
            && (t < |items| ==>
                  && Means(p, p.Max(), CodeSyms(items)[..t + 1]) == Take(p, p.Max(), d, CodeSyms(items)[t])
                  && After(p, items[..t + 1]) == Step(p, st, items[t])
                  && (items[t].Clear? <==> p.block && CodeOf(items[t]) == CLEAR))
  {
    hide Means, Valid, After, Agrees, DstOk, SymOk, Good, Sane, Take, Step, Params.MaxCode;
    SaneAfter(p, items[..t]);
    DictFitsWidth(p, items[..t]);
    ValidUpTo(p, items, t);
    CodesMean(p, items[..t]);
    SymsUpTo(items, t);
    MeansOk(p, p.Max(), CodeSyms(items[..t]));
    if t < |items| {
      AfterSnoc(p, items, t);
      CodesMean(p, items);
      GoodAt(p, p.Max(), CodeSyms(items), |items|, t);
      ValidAt(p, items, t);
    }
  }

  lemma ValidAt(p: Params, items: seq<Item>, t: nat)
    requires Valid(p, items) && t < |items|
    ensures items[t].Clear? <==> p.block && CodeOf(items[t]) == CLEAR
  {
    assert ValidItem(p, After(p, items[..t]), items[t]);
  }

  lemma ValidUpTo(p: Params, items: seq<Item>, t: nat)
    requires Valid(p, items) && t <= |items|
    ensures Valid(p, items[..t])
  {
    hide ValidItem, After;
    forall i: nat | i < t ensures ValidItem(p, After(p, items[..t][..i]), items[..t][i]) {
      assert items[..t][..i] == items[..i];
    }
  }

  lemma SymsUpTo(items: seq<Item>, t: nat)
    requires t <= |items|
    ensures CodeSyms(items[..t]) == CodeSyms(items)[..t] && CodeSyms(items)[..|items|] == CodeSyms(items)
  {
  }

  /** Where the first pass stands when it has taken the codes of t items. */
  ghost function Stand(p: Params, items: seq<Item>, t: nat): (s: Seek)
    requires p.Ok() && t <= |items|
    ensures SeekOk(p, s)
    decreases t, 0
  {
    if t == 0 then FIRST_SEEK else Passed(p, LooksAt(p, items, t - 1), CodeOf(items[t - 1]))
  }

  /** Where it then looks for the next code. */
  ghost function LooksAt(p: Params, items: seq<Item>, t: nat): (s: Seek)
    requires p.Ok() && t <= |items|
    ensures SeekOk(p, s)
    decreases t, 1
  {
    Sought(p, Stand(p, items, t), Means(p, p.Max(), CodeSyms(items)[..t]))
  }

  /** It looks where compress would put that code. */
  ghost predicate InStep(p: Params, items: seq<Item>, t: nat)
    requires p.Ok() && t <= |items|
  {
    At(After(p, items[..t]), LooksAt(p, items, t))
  }

  /** The dictionary never fills up in the first n items, or the limit is not 9 bits. */
  ghost predicate ReadableTo(p: Params, items: seq<Item>, n: nat)
    requires n <= |items|
  {
    p.maxbits >= 10 || forall t: nat :: t <= n ==> |After(p, items[..t]).dict| < 512
  }

  lemma {:induction false} Follows(p: Params, items: seq<Item>, t: nat)
    requires p.Ok() && Valid(p, items) && t <= |items| && ReadableTo(p, items, t)
    ensures Fitting(p, After(p, items[..t])) && InStep(p, items, t)
    ensures LooksAt(p, items, t).inmod * After(p, items[..t]).w == After(p, items[..t]).off
  {
    hide Means, Valid, After, Agrees, DstOk, Sane, Take, Step, Sought, Passed, Fitting, At;
    CodesTaken(p, items, t);
    var st, d := After(p, items[..t]), Means(p, p.Max(), CodeSyms(items)[..t]);
    if t == 0 {
      StartFits(p, items);
    } else {
      Follows(p, items, t - 1);
      CodesTaken(p, items, t - 1);
      FittingStep(p, After(p, items[..t - 1]), items[t - 1]);
      HeadNext(p, After(p, items[..t - 1]), items[t - 1], LooksAt(p, items, t - 1));
    }
    WidthTest(p, st, d, Stand(p, items, t));
  }

  lemma StartFits(p: Params, items: seq<Item>)
    requires p.Ok()
    ensures Fitting(p, After(p, items[..0])) && Head(p, After(p, items[..0]), FIRST_SEEK)
  {
    assert items[..0] == [];
    Pow2Le(9, p.maxbits);
  }

  /** Until then the first pass is in step; and it is in step only if compress has not gone beyond
      the limit. */
  lemma InStepIff(p: Params, items: seq<Item>, n: nat)
    requires p.Ok() && Valid(p, items) && n <= |items|
    ensures (forall t: nat :: t <= n ==> InStep(p, items, t)) <==> ReadableTo(p, items, n)
  {
    hide InStep, After, Valid;
    if ReadableTo(p, items, n) {
      forall t: nat | t <= n ensures InStep(p, items, t) { Follows(p, items, t); }
    } else {
      var t: nat :| t <= n && |After(p, items[..t]).dict| >= 512;
      OutOfStep(p, items, t);
    }
  }

  lemma OutOfStep(p: Params, items: seq<Item>, t: nat)
    requires p.Ok() && Valid(p, items) && t <= |items| && p.maxbits == 9 && |After(p, items[..t]).dict| >= 512
    ensures !InStep(p, items, t) && LooksAt(p, items, t).w == 9 && After(p, items[..t]).w >= 10
  {
    hide After, Valid, Means, LooksAt;
    CodesTaken(p, items, t);
  }

  /** After an item in step: the next code is looked for where compress puts it, at the width
      compress gives it, exactly when the limit is 10 bits or more, or the item is CLEAR, or the
      dictionary is not yet full. */
  lemma NextInStepIff(p: Params, items: seq<Item>, t: nat)
    requires p.Ok() && Valid(p, items) && t < |items| && forall u: nat :: u <= t ==> InStep(p, items, u)
    ensures InStep(p, items, t + 1) <==>
            p.maxbits >= 10 || items[t].Clear? || |DictAfter(p, After(p, items[..t]), items[t])| < 512
  {
    hide InStep, Valid, After;
    InStepIff(p, items, t);
    InStepIff(p, items, t + 1);
    AfterSnoc(p, items, t);
    assert |After(p, items[..t + 1]).dict| < 512 <==>
           items[t].Clear? || |DictAfter(p, After(p, items[..t]), items[t])| < 512;
  }

  // ---- the codes it takes ----

  /** As long as it is in step it takes the codes compress wrote. */
  lemma {:induction false} TakesCodes(p: Params, items: seq<Item>, bytes: seq<byte>, t: nat)
    requires p.Ok() && Valid(p, items) && Packed(p, items, bytes) && t <= |items|
    requires forall u: nat :: u < t ==> InStep(p, items, u)
    ensures FirstCodes(p, bytes) == CodeSyms(items)[..t]
            + Codes(p, bytes, Stand(p, items, t), Means(p, p.Max(), CodeSyms(items)[..t]))
  {
    hide Valid, Packed, Means, InStep, Codes, Stand;
    if t == 0 {
      TakesNone(p, items, bytes);
    } else {
      hide FirstCodes;
      TakesCodes(p, items, bytes, t - 1);
      TakesOne(p, items, bytes, t - 1);
      SymsStep(items, t - 1);
    }
  }

  lemma TakesNone(p: Params, items: seq<Item>, bytes: seq<byte>)
    requires p.Ok()
    ensures FirstCodes(p, bytes) == CodeSyms(items)[..0]
            + Codes(p, bytes, Stand(p, items, 0), Means(p, p.Max(), CodeSyms(items)[..0]))
  {
    hide Means, Codes;
    NothingRead(p, p.Max(), CodeSyms(items));
  }

  /** In step, the code found is the one compress wrote. */
  lemma TakesOne(p: Params, items: seq<Item>, bytes: seq<byte>, t: nat)
    requires p.Ok() && Valid(p, items) && Packed(p, items, bytes) && t < |items| && InStep(p, items, t)
    ensures Codes(p, bytes, Stand(p, items, t), Means(p, p.Max(), CodeSyms(items)[..t]))
            == [CodeSyms(items)[t]]
               + Codes(p, bytes, Stand(p, items, t + 1), Means(p, p.Max(), CodeSyms(items)[..t + 1]))
  {
    hide Valid, Packed, Means, After, Sought, Passed, Take, LzwBits.Field, CodeAt, Sane, Agrees, DstOk;
    CodesTaken(p, items, t);
    ItemFacts(p, items, bytes, t);
    CodeRead(bytes, After(p, items[..t]), CodeOf(items[t]));
    SymsStep(items, t);
  }

  lemma SymsStep(items: seq<Item>, t: nat)
    requires t < |items|
    ensures CodeSyms(items)[..t + 1] == CodeSyms(items)[..t] + [Sym(CodeOf(items[t]), false)]
    ensures CodeSyms(items)[t] == Sym(CodeOf(items[t]), false)
  {
  }

  /** In step to the end, it takes exactly the codes compress wrote. */
  lemma TakesAll(p: Params, items: seq<Item>, bytes: seq<byte>)
    requires p.Ok() && Valid(p, items) && Packed(p, items, bytes) && ReadableTo(p, items, |items|)
    ensures FirstCodes(p, bytes) == CodeSyms(items)
  {
    hide Valid, InStep, ReadableTo, Means, After, FirstCodes;
    var n := |items|;
    InStepIff(p, items, n);
    TakesCodes(p, items, bytes, n);
    SymsUpTo(items, n);
    ItemFacts(p, items, bytes, n);
    AtEnd(p, items, bytes);
  }

  lemma AtEnd(p: Params, items: seq<Item>, bytes: seq<byte>)
    requires p.Ok() && InStep(p, items, |items|) && |bytes| == After(p, items).start + Ceil8(After(p, items).off)
    ensures Codes(p, bytes, Stand(p, items, |items|), Means(p, p.Max(), CodeSyms(items)[..|items|])) == []
  {
    hide Means, After, Sought, Passed, CodeSyms;
    assert items[..|items|] == items;
  }
}
