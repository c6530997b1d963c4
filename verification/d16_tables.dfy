/**
 The part of the dictionary that one pass of decomp16 keeps: for each entry the index of its
 string without the last byte, and an index whose first byte is the last byte.
 */
module D16Tables {
  import opened LzwSpec
  import opened D16Meaning

  predicate Usable(p: Params, i: int) { 0 <= i && !(p.block && i == CLEAR) }

  /** Entry e of the tables spells entry e of the dictionary. */
  ghost predicate EntryOk(p: Params, base: nat, d: Dst, di: seq<int>, dc: seq<int>, e: nat) {
    && base <= e < |d.known| && e - base < |di| && e - base < |dc|
    && var i, c := di[e - base], dc[e - base];
       && i < e && Usable(p, i) && c < base && c < |d.known| && Usable(p, c)
       && d.known[c] != [] && d.known[e] == d.known[i] + [d.known[c][0]]
  }

  /** The pending entry, if it is one of this pass, has its first index already. */
  ghost predicate PendingOk(p: Params, base: nat, cap: nat, d: Dst, di: seq<int>) {
    Pending(cap, d) && |d.known| >= base ==>
      var e := |d.known|;
      e - base < |di| && di[e - base] < e && Usable(p, di[e - base]) && d.known[di[e - base]] == d.prev
  }

  ghost predicate Tables(p: Params, base: nat, cap: nat, d: Dst, di: seq<int>, dc: seq<int>) {
    && |di| == |dc| == DICTSZ && PendingOk(p, base, cap, d, di)
    && forall e: nat :: base <= e < |d.known| && Usable(p, e) ==> EntryOk(p, base, d, di, dc, e)
  }

  // ---- chains of entries ----

  predicate Links(di: seq<int>, base: nat, i: int) {
    base <= i < base + |di| && 0 <= di[i - base] < i
  }

  /** Where the chain from i leaves the tables of this pass. */
  function Root(di: seq<int>, base: nat, i: int): int
    decreases i
  {
    if Links(di, base, i) then Root(di, base, di[i - base]) else i
  }

  /** The second indices along the chain, from its end. */
  function Chars(di: seq<int>, dc: seq<int>, base: nat, i: int): seq<int>
    requires |dc| == |di|
    decreases i
  {
    if Links(di, base, i) then Chars(di, dc, base, di[i - base]) + [dc[i - base]] else []
  }

  function FirstBytes(known: seq<Str>, xs: seq<int>): (r: Str) {
    if xs == [] then []
    else
      var n := |xs| - 1;
      FirstBytes(known, xs[..n]) + if 0 <= xs[n] < |known| && known[xs[n]] != [] then [known[xs[n]][0]] else []
  }

  /** The chain of an index ends below base, at an index whose string begins with the same
      byte. */
  lemma {:induction false} RootOk(p: Params, base: nat, cap: nat, d: Dst, di: seq<int>, dc: seq<int>, i: nat)
    requires DstOk(p, d) && Tables(p, base, cap, d, di, dc) && Usable(p, i) && Lookup(cap, d, i) != []
    ensures var r := Root(di, base, i);
            && 0 <= r < base && r <= i && Usable(p, r) && (r < i ==> r < |d.known|)
            && Lookup(cap, d, r) != [] && Lookup(cap, d, r)[0] == Lookup(cap, d, i)[0]
    decreases i
  {
    if i >= base {
      ChainStep(p, base, cap, d, di, dc, i);
      RootOk(p, base, cap, d, di, dc, di[i - base]);
    }
  }

  lemma ChainStep(p: Params, base: nat, cap: nat, d: Dst, di: seq<int>, dc: seq<int>, i: nat)
    requires DstOk(p, d) && Tables(p, base, cap, d, di, dc) && Usable(p, i) && Lookup(cap, d, i) != [] && i >= base
    ensures Links(di, base, i)
    ensures var j := di[i - base];
            j < |d.known| && Usable(p, j) && d.known[j] != [] && Lookup(cap, d, i)[0] == d.known[j][0]
  {
    if i < |d.known| {
      assert EntryOk(p, base, d, di, dc, i);
    }
  }

  /** A string is that of the end of its chain with the first bytes along it. */
  lemma {:induction false} ChainSpells(p: Params, base: nat, cap: nat, d: Dst, di: seq<int>, dc: seq<int>, i: nat)
    requires Tables(p, base, cap, d, di, dc) && i < |d.known| && Usable(p, i)
    ensures var r := Root(di, base, i);
            0 <= r < |d.known| && d.known[i] == d.known[r] + FirstBytes(d.known, Chars(di, dc, base, i))
    ensures forall k: nat :: k < |Chars(di, dc, base, i)| ==> CharOk(p, base, d, Chars(di, dc, base, i)[k])
    decreases i
  {
    if i >= base {
      assert EntryOk(p, base, d, di, dc, i);
      var j, c := di[i - base], dc[i - base];
      ChainSpells(p, base, cap, d, di, dc, j);
      FirstBytesSnoc(d.known, Chars(di, dc, base, j), c);
    }
  }

  ghost predicate CharOk(p: Params, base: nat, d: Dst, x: int) {
    0 <= x < base && x < |d.known| && Usable(p, x) && d.known[x] != []
  }

  lemma FirstBytesSnoc(known: seq<Str>, xs: seq<int>, c: int)
    requires 0 <= c < |known| && known[c] != []
    ensures FirstBytes(known, xs + [c]) == FirstBytes(known, xs) + [known[c][0]]
  {
    assert (xs + [c])[..|xs|] == xs;
  }

  // ---- one whole index ----

  ghost predicate CurOk(cap: nat, d: Dst, curend: int) {
    curend == if d.prev == [] then |d.known| - 1 else if |d.known| < cap then |d.known| else cap - 1
  }

  /** dcharp is the place that waits for its second index, or one that nothing refers to. */
  ghost predicate WaitOk(base: nat, cap: nat, d: Dst, dcharp: nat) {
    && dcharp <= DICTSZ
    && if Pending(cap, d) && |d.known| >= base then dcharp == |d.known| - base
       else dcharp == DICTSZ || (|d.known| == cap && dcharp >= cap - base)
  }

  /** The stream passed on means as much as the stream read, and builds up the same dictionary
      below capOut. */
  ghost predicate OutOk(capOut: nat, d: Dst, o: Dst) {
    o.out == d.out && o.known == d.known[..Min(|d.known|, capOut)] && (|d.known| < capOut ==> o.prev == d.prev)
  }

  /** The capacities of a pass: what it knows ends at cap, what it passes on at capOut. */
  ghost predicate Caps(p: Params, base: nat, cap: nat, capOut: nat) {
    && p.Ok() && 256 <= base && |InitDict(p)| <= capOut <= cap <= base + DICTSZ && cap <= p.Max()
    && (capOut <= base || (base == 256 && capOut == |InitDict(p)|)) && (capOut < base ==> capOut == cap == p.Max())
    && 512 <= cap
  }

  /** Passing on the root of an index: both dictionaries move on alike. */
  lemma RootTaken(p: Params, base: nat, cap: nat, capOut: nat, d: Dst, o: Dst, i: nat, r: nat)
    requires Caps(p, base, cap, capOut) && DstOk(p, d) && OutOk(capOut, d, o) && |d.known| <= cap
    requires Usable(p, i) && Lookup(cap, d, i) != [] && r < base && Usable(p, r) && r <= i && (r < i ==> r < |d.known|)
    requires Lookup(cap, d, r) != [] && Lookup(cap, d, r)[0] == Lookup(cap, d, i)[0]
    requires i < base ==> r == i
    ensures SymOk(p, capOut, o, Sym(r, false))
    ensures var d', o' := Take(p, cap, d, Sym(i, false)), Take(p, capOut, o, Sym(r, false));
            && i < |d'.known| && d'.known[i] == Lookup(cap, d, i) && r < |d'.known| && d'.known[r] == Lookup(cap, d, r)
            && o'.out == o.out + d'.known[r] && d'.out == d.out + d'.known[i]
            && OutOk(capOut, d', o'.(out := d'.out)) && d'.prev == d'.known[i] && |d'.known| <= cap
  {
    assert Lookup(capOut, o, r) == Lookup(cap, d, r);
  }

  function SetChar(dc: seq<int>, dcharp: nat, r: int): seq<int> {
    if dcharp < |dc| then dc[dcharp := r] else dc
  }

  /** The entries stay, and the pending one gets its second index. */
  lemma CharStored(p: Params, base: nat, cap: nat, d: Dst, d': Dst, di: seq<int>, dc: seq<int>, dcharp: nat, r: nat,
      e: nat)
    requires Tables(p, base, cap, d, di, dc) && WaitOk(base, cap, d, dcharp) && |d.known| <= cap
    requires r < base && r < |d'.known| && Usable(p, r) && d'.known[r] != []
    requires d'.known == Known'(cap, d, d'.known[r][0]) && base <= e < |d'.known| && Usable(p, e)
    ensures EntryOk(p, base, d', di, SetChar(dc, dcharp, r), e)
  {
    if e < |d.known| { assert EntryOk(p, base, d, di, dc, e); }
  }

  lemma EntryKept(p: Params, base: nat, d: Dst, di: seq<int>, di': seq<int>, dc: seq<int>, e: nat)
    requires EntryOk(p, base, d, di, dc, e) && |di'| == |di| && di'[e - base] == di[e - base]
    ensures EntryOk(p, base, d, di', dc, e)
  {
  }

  /** The tables after an index, with its own place in them if there is room. */
  lemma TablesNext(p: Params, base: nat, cap: nat, capOut: nat, d: Dst, d': Dst, di: seq<int>, dc: seq<int>,
      dcharp: nat,
                   curend: int, i: nat, r: nat)
    requires Caps(p, base, cap, capOut) && DstOk(p, d) && Tables(p, base, cap, d, di, dc) && CurOk(cap, d, curend)
    requires WaitOk(base, cap, d, dcharp) && |d.known| <= cap
    requires Usable(p, i) && i < |d'.known| && d'.prev == d'.known[i] != []
    requires r < base && r < |d'.known| && Usable(p, r) && d'.known[r] != []
    requires d'.known == Known'(cap, d, d'.known[r][0])
    ensures var dc' := SetChar(dc, dcharp, r);
            var w := if dcharp < DICTSZ then dcharp + 1 else dcharp;
            if curend < cap - 1 then
              if curend + 1 > base - 1 then
                && 0 <= curend + 1 - base < DICTSZ && CurOk(cap, d', curend + 1)
                   && WaitOk(base, cap, d', curend + 1 - base)
                && Tables(p, base, cap, d', di[curend + 1 - base := i], dc')
              else CurOk(cap, d', curend + 1) && WaitOk(base, cap, d', w) && Tables(p, base, cap, d', di, dc')
            else CurOk(cap, d', curend) && WaitOk(base, cap, d', w) && Tables(p, base, cap, d', di, dc')
  {
    var dc' := SetChar(dc, dcharp, r);
    var di' := if curend < cap - 1 && curend + 1 > base - 1 then di[curend + 1 - base := i] else di;
    assert |InitDict(p)| <= |d.known|;
    forall e: nat | base <= e < |d'.known| && Usable(p, e) ensures EntryOk(p, base, d', di', dc', e) {
      CharStored(p, base, cap, d, d', di, dc, dcharp, r, e);
      EntryKept(p, base, d', di, di', dc', e);
    }
  }

  // ---- first bytes passed on ----

  function Firsts(xs: seq<int>): seq<Sym> {
    seq(|xs|, k requires 0 <= k < |xs| => Sym(if xs[k] < 0 then 0 else xs[k], true))
  }

  lemma FirstTaken(p: Params, base: nat, capOut: nat, d: Dst, o: Dst, x: nat)
    requires CharOk(p, base, d, x) && o.known == d.known[..Min(|d.known|, capOut)]
    requires (base <= capOut || |d.known| <= capOut)
    ensures SymOk(p, capOut, o, Sym(x, true)) && Take(p, capOut, o, Sym(x, true)) == o.(out := o.out + [d.known[x][0]])
  {
    assert Lookup(capOut, o, x) == d.known[x];
  }

  /** First bytes passed on add those bytes and change nothing else. */
  lemma {:induction false} FirstsMean(p: Params, base: nat, capOut: nat, d: Dst, syms: seq<Sym>, xs: seq<int>)
    requires Good(p, capOut, syms) && forall k: nat :: k < |xs| ==> CharOk(p, base, d, xs[k])
    requires Means(p, capOut, syms).known == d.known[..Min(|d.known|, capOut)]
    requires (base <= capOut || |d.known| <= capOut)
    ensures var o := Means(p, capOut, syms);
            && Good(p, capOut, syms + Firsts(xs))
            && Means(p, capOut, syms + Firsts(xs)) == o.(out := o.out + FirstBytes(d.known, xs))
  {
    hide Good, Means, Take, SymOk;
    var o := Means(p, capOut, syms);
    if xs == [] {
      assert syms + Firsts(xs) == syms && o.out + [] == o.out;
    } else {
      var n := |xs| - 1;
      FirstsMean(p, base, capOut, d, syms, xs[..n]);
      var pre, s := syms + Firsts(xs[..n]), Sym(xs[n], true);
      FirstsSnoc(syms, xs);
      assert CharOk(p, base, d, xs[n]);
      FirstTaken(p, base, capOut, d, Means(p, capOut, pre), xs[n]);
      MeansSnoc(p, capOut, pre, s);
      GoodSnoc(p, capOut, pre, s);
      Assoc(o.out, FirstBytes(d.known, xs[..n]), [d.known[xs[n]][0]]);
    }
  }

  lemma FirstsSnoc(syms: seq<Sym>, xs: seq<int>)
    requires xs != [] && xs[|xs| - 1] >= 0
    ensures syms + Firsts(xs) == syms + Firsts(xs[..|xs| - 1]) + [Sym(xs[|xs| - 1], true)]
  {
  }

  lemma Assoc(a: Str, b: Str, c: Str)
    ensures a + b + c == a + (b + c)
  {
  }

  // ---- what is passed on for each symbol ----

  lemma FirstPassed(p: Params, base: nat, cap: nat, capOut: nat, d: Dst, out: seq<Sym>, i: nat, t: nat)
    requires Caps(p, base, cap, capOut) && DstOk(p, d) && |d.known| <= cap
    requires Good(p, capOut, out) && OutOk(capOut, d, Means(p, capOut, out))
    requires SymOk(p, cap, d, Sym(i, true)) && t < base && t <= i
    requires Usable(p, t) && d.known[t] != [] && d.known[t][0] == d.known[i][0]
    ensures Good(p, capOut, out + [Sym(t, true)])
    ensures OutOk(capOut, Take(p, cap, d, Sym(i, true)), Means(p, capOut, out + [Sym(t, true)]))
  {
    hide Good, Means;
    FirstTaken(p, base, capOut, d, Means(p, capOut, out), t);
    MeansSnoc(p, capOut, out, Sym(t, true));
    GoodSnoc(p, capOut, out, Sym(t, true));
  }

  /** Nothing but the bytes written changes with a first byte. */
  lemma SameTables(p: Params, base: nat, cap: nat, d: Dst, d': Dst, di: seq<int>, dc: seq<int>, curend: int,
      dcharp: nat)
    requires Tables(p, base, cap, d, di, dc) && CurOk(cap, d, curend) && WaitOk(base, cap, d, dcharp) && DstOk(p, d)
    requires d'.known == d.known && d'.prev == d.prev
    ensures Tables(p, base, cap, d', di, dc) && CurOk(cap, d', curend) && WaitOk(base, cap, d', dcharp) && DstOk(p, d')
  {
    forall e: nat | base <= e < |d'.known| && Usable(p, e) ensures EntryOk(p, base, d', di, dc, e) {
      assert EntryOk(p, base, d, di, dc, e);
    }
  }

  /** After a clear, passed on or, by the last pass, not. */
  lemma ClearPassed(p: Params, base: nat, cap: nat, capOut: nat, d: Dst, out: seq<Sym>)
    requires Caps(p, base, cap, capOut) && p.block && DstOk(p, d)
    requires Good(p, capOut, out) && OutOk(capOut, d, Means(p, capOut, out))
    ensures var d' := Take(p, cap, d, Sym(CLEAR, false));
            && Good(p, capOut, out + [Sym(CLEAR, false)])
               && OutOk(capOut, d', Means(p, capOut, out + [Sym(CLEAR, false)]))
            && (capOut == |InitDict(p)| ==> OutOk(capOut, d', Means(p, capOut, out)))
  {
    hide Good, Means;
    MeansSnoc(p, capOut, out, Sym(CLEAR, false));
    GoodSnoc(p, capOut, out, Sym(CLEAR, false));
  }

  lemma RootPassed(p: Params, base: nat, cap: nat, capOut: nat, d: Dst, out: seq<Sym>, i: nat, t: nat)
    requires Caps(p, base, cap, capOut) && DstOk(p, d) && |d.known| <= cap
    requires Good(p, capOut, out) && OutOk(capOut, d, Means(p, capOut, out))
    requires Usable(p, i) && Lookup(cap, d, i) != [] && t < base && Usable(p, t) && t <= i && (t < i ==> t < |d.known|)
    requires Lookup(cap, d, t) != [] && Lookup(cap, d, t)[0] == Lookup(cap, d, i)[0] && (i < base ==> t == i)
    ensures Good(p, capOut, out + [Sym(t, false)])
    ensures var d', o' := Take(p, cap, d, Sym(i, false)), Means(p, capOut, out + [Sym(t, false)]);
            && i < |d'.known| && t < |d'.known| && d'.known[t] != [] && d'.prev == d'.known[i] != []
            && d'.known == Known'(cap, d, d'.known[t][0]) && |d'.known| <= cap
            && o'.out == d.out + d'.known[t] && d'.out == d.out + d'.known[i] && OutOk(capOut, d', o'.(out := d'.out))
  {
    hide Good, Means, OutOk, SymOk;
    RootTaken(p, base, cap, capOut, d, Means(p, capOut, out), i, t);
    MeansSnoc(p, capOut, out, Sym(t, false));
    GoodSnoc(p, capOut, out, Sym(t, false));
    assert Means(p, capOut, out).out == d.out by { OutSame(capOut, d, Means(p, capOut, out)); }
  }

  lemma OutSame(capOut: nat, d: Dst, o: Dst)
    requires OutOk(capOut, d, o)
    ensures o.out == d.out
  {
  }

  lemma {:induction false} RootSame(di: seq<int>, di': seq<int>, base: nat, i: int)
    requires |di'| == |di| && forall k: nat :: k < |di| && k + base <= i ==> di'[k] == di[k]
    ensures Root(di', base, i) == Root(di, base, i)
    decreases i
  {
    if Links(di, base, i) { RootSame(di, di', base, di[i - base]); }
  }

  /** The root and the first bytes spawned mean the whole string. */
  lemma Spawned(p: Params, base: nat, cap: nat, capOut: nat, d: Dst, d': Dst, syms: seq<Sym>, di: seq<int>,
      dc: seq<int>, i: nat)
    requires Caps(p, base, cap, capOut) && |d'.known| <= cap
    requires Good(p, capOut, syms) && Tables(p, base, cap, d', di, dc)
    requires i < |d'.known| && Usable(p, i) && |dc| == |di|
    requires var o, t := Means(p, capOut, syms), Root(di, base, i);
             && 0 <= t < |d'.known| && o.out == d.out + d'.known[t] && d'.out == d.out + d'.known[i]
                && OutOk(capOut, d', o.(out := d'.out))
    ensures var ss := syms + Firsts(Chars(di, dc, base, i));
            Good(p, capOut, ss) && OutOk(capOut, d', Means(p, capOut, ss))
  {
    hide Good, Means, Tables;
    ChainSpells(p, base, cap, d', di, dc, i);
    FirstsMean(p, base, capOut, d', syms, Chars(di, dc, base, i));
    Assoc(d.out, d'.known[Root(di, base, i)], FirstBytes(d'.known, Chars(di, dc, base, i)));
  }
}
