/**
 The index streams between the passes of decomp16, and what they mean.

 A symbol is an index into the dictionary that stands for its whole string, or for the first
 byte of it only. Whole indices build up the dictionary: each adds the string before it with
 its own first byte. A stream read by a pass that knows only the first entries of the
 dictionary has the dictionary capped there.
 */
module D16Meaning {
  import opened LzwBits
  import opened LzwSpec

  const DICTSZ: nat := 13056

  datatype Sym = Sym(index: nat, first: bool)

  /** The complete entries, the string of the last whole index ([] if there is none), and the
      bytes so far. The entry after the complete ones is prev and a byte not known yet. */
  datatype Dst = Dst(known: seq<Str>, prev: Str, out: Str)

  function Dst0(p: Params): Dst { Dst(InitDict(p), [], []) }

  predicate Pending(cap: nat, d: Dst) { d.prev != [] && |d.known| < cap }

  /** The string of an index, [] if it has none. */
  function Lookup(cap: nat, d: Dst, i: nat): Str {
    if i < |d.known| then d.known[i]
    else if i == |d.known| && Pending(cap, d) then d.prev + [d.prev[0]]
    else []
  }

  function Known'(cap: nat, d: Dst, c: byte): seq<Str> {
    if Pending(cap, d) then d.known + [d.prev + [c]] else d.known
  }

  function Take(p: Params, cap: nat, d: Dst, s: Sym): Dst {
    var t := Lookup(cap, d, s.index);
    if !s.first && p.block && s.index == CLEAR then Dst(InitDict(p), [], d.out)
    else if t == [] then d
    else if s.first then d.(out := d.out + [t[0]])
    else Dst(Known'(cap, d, t[0]), t, d.out + t)
  }

  function Means(p: Params, cap: nat, syms: seq<Sym>): Dst {
    if syms == [] then Dst0(p) else Take(p, cap, Means(p, cap, syms[..|syms| - 1]), syms[|syms| - 1])
  }

  /** The index stands for something: a clear, an entry, or for a whole index the pending one. */
  predicate SymOk(p: Params, cap: nat, d: Dst, s: Sym) {
    if p.block && s.index == CLEAR then !s.first
    else Lookup(cap, d, s.index) != [] && (s.first ==> s.index < |d.known|)
  }

  predicate Good(p: Params, cap: nat, syms: seq<Sym>) {
    forall t: nat :: t < |syms| ==> SymOk(p, cap, Means(p, cap, syms[..t]), syms[t])
  }

  predicate DstOk(p: Params, d: Dst) {
    && |InitDict(p)| <= |d.known| && InitDict(p) <= d.known && (d.prev == [] ==> d.known == InitDict(p))
    && forall i: nat :: i < |d.known| && !(p.block && i == CLEAR) ==> d.known[i] != []
  }

  lemma MeansSnoc(p: Params, cap: nat, syms: seq<Sym>, s: Sym)
    ensures Means(p, cap, syms + [s]) == Take(p, cap, Means(p, cap, syms), s)
  {
    assert (syms + [s])[..|syms|] == syms;
  }

  lemma GoodSnoc(p: Params, cap: nat, syms: seq<Sym>, s: Sym)
    requires Good(p, cap, syms) && SymOk(p, cap, Means(p, cap, syms), s)
    ensures Good(p, cap, syms + [s])
  {
    var ss := syms + [s];
    forall t: nat | t < |ss| ensures SymOk(p, cap, Means(p, cap, ss[..t]), ss[t]) {
      assert ss[..t] == if t < |syms| then syms[..t] else syms;
    }
  }

  lemma TakeOk(p: Params, cap: nat, d: Dst, s: Sym)
    requires DstOk(p, d)
    ensures DstOk(p, Take(p, cap, d, s))
  {
  }

  lemma {:induction false} MeansOk(p: Params, cap: nat, syms: seq<Sym>)
    ensures DstOk(p, Means(p, cap, syms))
  {
    if syms != [] {
      MeansOk(p, cap, syms[..|syms| - 1]);
      TakeOk(p, cap, Means(p, cap, syms[..|syms| - 1]), syms[|syms| - 1]);
    }
  }

  // ---- streams of bytes ----

  function Indices(syms: seq<Sym>): seq<nat> {
    seq(|syms|, i requires 0 <= i < |syms| => syms[i].index)
  }

  /** A stream of single bytes means those bytes. */
  lemma {:induction false} BytesMean(p: Params, cap: nat, syms: seq<Sym>)
    requires forall t: nat :: t < |syms| ==> syms[t].index < 256
    ensures Means(p, cap, syms).out == Indices(syms)
  {
    if syms != [] {
      var n := |syms| - 1;
      var d := Means(p, cap, syms[..n]);
      BytesMean(p, cap, syms[..n]);
      MeansOk(p, cap, syms[..n]);
      assert d.known[syms[n].index] == InitDict(p)[syms[n].index] == [syms[n].index as byte];
      assert Indices(syms) == Indices(syms[..n]) + [syms[n].index];
    }
  }

  // ---- the codes of a compressed file ----

  function CodeSyms(items: seq<Item>): seq<Sym> {
    seq(|items|, i requires 0 <= i < |items| => Sym(CodeOf(items[i]), false))
  }

  /** Dictionaries that agree but for the place of CLEAR. */
  ghost predicate SameButClear(p: Params, a: seq<Str>, b: seq<Str>) {
    |a| == |b| && forall i: nat :: i < |a| && !(p.block && i == CLEAR) ==> a[i] == b[i]
  }

  /** The decoder's dictionary is the one a stream of codes builds up; after a clear it has one
      entry less, which is made and never used. */
  ghost predicate Agrees(p: Params, st: St, d: Dst) {
    if d.prev == [] && st.prev != [] then p.block && st.dict == Singles(256) && d.known == InitDict(p)
    else SameButClear(p, st.dict, d.known) && d.prev == st.prev
  }

  lemma AgreesStep(p: Params, st: St, d: Dst, it: Item)
    requires p.Ok() && Sane(p, st) && DstOk(p, d) && Agrees(p, st, d) && ValidItem(p, st, it)
    ensures var s := Sym(CodeOf(it), false);
            && SymOk(p, p.Max(), d, s) && Agrees(p, Step(p, st, it), Take(p, p.Max(), d, s))
            && Take(p, p.Max(), d, s).out == d.out + StrOf(it)
  {
    MaxBounds(p);
  }

  lemma ValidPrefix(p: Params, items: seq<Item>)
    requires Valid(p, items) && items != []
    ensures var n := |items| - 1; Valid(p, items[..n]) && ValidItem(p, After(p, items[..n]), items[n])
  {
    hide ValidItem, After;
    var n := |items| - 1;
    forall i: nat | i < n ensures ValidItem(p, After(p, items[..n][..i]), items[..n][i]) {
      assert items[..n][..i] == items[..i];
    }
  }

  lemma NoCodes(p: Params)
    requires p.Ok()
    ensures CodeSyms([]) == [] && Good(p, p.Max(), []) && Agrees(p, After(p, []), Means(p, p.Max(), []))
  {
  }

  /** The codes of a compressed file mean its text. */
  lemma {:induction false} CodesMean(p: Params, items: seq<Item>)
    requires p.Ok() && Valid(p, items)
    ensures Good(p, p.Max(), CodeSyms(items)) && Means(p, p.Max(), CodeSyms(items)).out == Text(items)
    ensures Agrees(p, After(p, items), Means(p, p.Max(), CodeSyms(items)))
  {
    hide Valid, ValidItem, Agrees, SymOk, Take, Step, Good, Sane, DstOk;
    if items == [] {
      NoCodes(p);
    } else {
      var n := |items| - 1;
      var pre, it := items[..n], items[n];
      ValidPrefix(p, items);
      CodesMean(p, pre);
      SaneAfter(p, pre);
      MeansOk(p, p.Max(), CodeSyms(pre));
      AgreesStep(p, After(p, pre), Means(p, p.Max(), CodeSyms(pre)), it);
      assert CodeSyms(items) == CodeSyms(pre) + [Sym(CodeOf(it), false)];
      MeansSnoc(p, p.Max(), CodeSyms(pre), Sym(CodeOf(it), false));
      GoodSnoc(p, p.Max(), CodeSyms(pre), Sym(CodeOf(it), false));
    }
  }
}
