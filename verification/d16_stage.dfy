/**
 One pass of decomp16. It reads a stream of indices and passes on one that means the same and
 has only indices below its own part of the dictionary.
 */
module D16Stage {
  import opened LzwBits
  import opened LzwSpec
  import opened D16Meaning
  import opened D16Tables

  /** Where the part of pass k starts, and with it the part of the passes after it ends. */
  function Base(k: nat): nat { DICTSZ * k + 256 }

  function Cap(p: Params, k: nat): nat { if k == 0 then |InitDict(p)| else Min(p.Max(), Base(k)) }

  lemma CapsOk(p: Params, k: nat)
    requires p.Ok() && k <= 4
    ensures Caps(p, Base(k), Cap(p, k + 1), Cap(p, k)) && Cap(p, 5) == p.Max()
    ensures Cap(p, k + 1) - 1 == Min(p.Max() - 1, Base(k) + DICTSZ - 1)
  {
    MaxBounds(p);
  }

  // ---- chains, as the loops of a pass follow them ----

  ghost predicate OnChain(di: seq<int>, base: nat, i: int, t: int)
    decreases i
  {
    i == t || (Links(di, base, i) && OnChain(di, base, di[i - base], t))
  }

  /** The second indices along the chain of i that belong to entries below tb. */
  ghost function CharsBelow(di: seq<int>, dc: seq<int>, base: nat, i: int, tb: int): seq<int>
    requires |dc| == |di|
    decreases i
  {
    if i < tb then Chars(di, dc, base, i)
    else if Links(di, base, i) then CharsBelow(di, dc, base, di[i - base], tb)
    else []
  }

  lemma {:induction false} BelowOnChain(di: seq<int>, dc: seq<int>, base: nat, i: int, t: int, tb: int)
    requires |dc| == |di| && OnChain(di, base, i, t) && tb <= t + 1
    ensures CharsBelow(di, dc, base, i, tb) == CharsBelow(di, dc, base, t, tb) && t <= i
    decreases i
  {
    if i != t { BelowOnChain(di, dc, base, di[i - base], t, tb); }
  }

  lemma {:induction false} ChainMore(di: seq<int>, base: nat, i: int, t: int)
    requires OnChain(di, base, i, t) && Links(di, base, t)
    ensures OnChain(di, base, i, di[t - base])
    decreases i
  {
    if i != t { ChainMore(di, base, di[i - base], t); }
  }

  lemma BelowBase(di: seq<int>, dc: seq<int>, base: nat, i: int)
    requires |dc| == |di|
    ensures CharsBelow(di, dc, base, i, base) == []
    decreases i
  {
  }

  /** Every entry from i down to base has its index. */
  ghost predicate Linked(di: seq<int>, base: nat, i: int)
    decreases i
  {
    i < base || (Links(di, base, i) && Linked(di, base, di[i - base]))
  }

  lemma {:induction false} LinkedOn(di: seq<int>, base: nat, i: int, t: int)
    requires Linked(di, base, i) && OnChain(di, base, i, t)
    ensures Linked(di, base, t)
    decreases i
  {
    if i != t { LinkedOn(di, base, di[i - base], t); }
  }

  lemma {:induction false} ChainLinked(p: Params, base: nat, cap: nat, d: Dst, di: seq<int>, dc: seq<int>, i: nat)
    requires DstOk(p, d) && Tables(p, base, cap, d, di, dc) && Usable(p, i) && Lookup(cap, d, i) != []
    ensures Linked(di, base, i)
    decreases i
  {
    if i >= base {
      ChainStep(p, base, cap, d, di, dc, i);
      ChainLinked(p, base, cap, d, di, dc, di[i - base]);
    }
  }

  class Stage {
    const p: Params
    const pnum: nat
    const base: nat
    const maxend: int
    const dindex: array<nat>
    const dchar: array<nat>
    var curend: int
    var dcharp: nat
    /** The indices passed on. */
    var out: seq<Sym>
    /** What the indices read so far mean. */
    ghost var d: Dst

    ghost predicate Shape()
    {
      && p.Ok() && pnum <= 4 && base == Base(pnum) && maxend == Cap(p, pnum + 1) - 1
      && dindex.Length == DICTSZ && dchar.Length == DICTSZ && dindex != dchar
    }

    ghost predicate Valid()
      reads this, dindex, dchar
    {
      && Shape() && DstOk(p, d) && |d.known| <= Cap(p, pnum + 1)
      && Tables(p, base, Cap(p, pnum + 1), d, dindex[..], dchar[..])
      && CurOk(Cap(p, pnum + 1), d, curend) && WaitOk(base, Cap(p, pnum + 1), d, dcharp)
      && Passed()
    }

    /** The stream passed on means what the stream read does. */
    ghost predicate Passed()
      reads this`d, this`out
    {
      && Good(p, Cap(p, pnum), out) && OutOk(Cap(p, pnum), d, Means(p, Cap(p, pnum), out))
      && forall t: nat :: t < |out| ==> out[t].index < base
    }

    constructor (p: Params, pnum: nat)
      requires p.Ok() && pnum <= 4
      ensures this.p == p && this.pnum == pnum && Valid() && out == [] && d == Dst0(p) && fresh(dindex) && fresh(dchar)
    {
      this.p, this.pnum := p, pnum;
      base := Base(pnum);
      maxend := Min(Pow2(p.maxbits) - 1, Base(pnum) + DICTSZ - 1);
      dindex, dchar := new nat[DICTSZ], new nat[DICTSZ];
      curend := 255 + if p.block then 1 else 0;
      dcharp := DICTSZ;
      out, d := [], Dst0(p);
      new;
      CapsOk(p, pnum);
    }

    method PutPipe(u: nat, first: bool)
      modifies this`out
      ensures out == old(out) + [Sym(u, first)]
    {
      out := out + [Sym(u, first)];
    }

    /** Follow the indices until one below base is left. */
    method FindRoot(i: nat) returns (t: int)
      requires dindex.Length == DICTSZ && Linked(dindex[..], base, i)
      ensures t == Root(dindex[..], base, i)
    {
      t := i;
      while t >= base
        invariant 0 <= t && Linked(dindex[..], base, t) && Root(dindex[..], base, t) == Root(dindex[..], base, i)
        decreases t
      {
        t := dindex[t - base];
      }
    }

    /** Pass on the last bytes of entry i and of those on its chain, in their order. */
    method Spawn(i: nat)
      requires Shape() && Linked(dindex[..], base, i)
      modifies this`out
      ensures out == old(out) + Firsts(Chars(dindex[..], dchar[..], base, i))
    {
      ghost var di, dc := dindex[..], dchar[..];
      ghost var sent: seq<int> := [];
      var tbase := base;
      BelowBase(di, dc, base, i);
      while i >= tbase
        invariant base <= tbase && sent == CharsBelow(di, dc, base, i, tbase) && out == old(out) + Firsts(sent)
        decreases i + 1 - tbase
      {
        var t := i;
        var t2 := dindex[t - base];
        while t2 >= tbase
          invariant out == old(out) + Firsts(sent)
          invariant tbase <= t <= i && OnChain(di, base, i, t) && Linked(di, base, t) && t2 == di[t - base]
          decreases t
        {
          ChainMore(di, base, i, t);
          t := t2;
          LinkedOn(di, base, i, t);
          t2 := dindex[t - base];
        }
        BelowOnChain(di, dc, base, i, t, tbase);
        BelowOnChain(di, dc, base, i, t, t + 1);
        PutPipe(dchar[t - base], true);
        ghost var more := sent + [dc[t - base]];
        assert more[..|more| - 1] == sent;
        FirstsSnoc(old(out), more);
        sent, tbase := more, t + 1;
      }
    }

    /** An index that stands for a first byte is passed on as one below base. */
    method PassFirst(i: nat)
      requires Valid() && SymOk(p, Cap(p, pnum + 1), d, Sym(i, true))
      modifies this`out, this`d
      ensures Valid() && d == Take(p, Cap(p, pnum + 1), old(d), Sym(i, true))
    {
      hide Tables, Good, Means, OutOk, CurOk, WaitOk;
      ghost var di, dc, cap, capOut := dindex[..], dchar[..], Cap(p, pnum + 1), Cap(p, pnum);
      CapsOk(p, pnum);
      ChainLinked(p, base, cap, d, di, dc, i);
      RootOk(p, base, cap, d, di, dc, i);
      var t := FindRoot(i);
      FirstPassed(p, base, cap, capOut, d, out, i, t);
      PutPipe(t, true);
      d := Take(p, cap, d, Sym(i, true));
      hide Take;
      SameTables(p, base, cap, old(d), d, di, dc, curend, dcharp);
    }

    /** CLEAR: the dictionary starts over. */
    method Clear()
      requires Valid() && p.block
      modifies this
      ensures Valid() && d == Take(p, Cap(p, pnum + 1), old(d), Sym(CLEAR, false))
    {
      hide Good, Means, OutOk;
      CapsOk(p, pnum);
      ClearPassed(p, base, Cap(p, pnum + 1), Cap(p, pnum), d, out);
      if pnum > 0 { PutPipe(CLEAR, false); }
      d := Take(p, Cap(p, pnum + 1), d, Sym(CLEAR, false));
      curend := 255 + if p.block then 1 else 0;
      dcharp := DICTSZ;
    }

    /** Save the index whose first byte ends the pending entry. */
    method StoreChar(t: nat)
      requires dchar.Length == DICTSZ
      modifies this`dcharp, dchar
      ensures dchar[..] == SetChar(old(dchar[..]), old(dcharp), t)
      ensures dcharp == if old(dcharp) < DICTSZ then old(dcharp) + 1 else old(dcharp)
    {
      if dcharp < DICTSZ {
        dchar[dcharp] := t;
        dcharp := dcharp + 1;
      }
    }

    /** Give the pending entry its second index and make index i the first of a new one. */
    method Enter(i: nat, t: nat, ghost d': Dst)
      requires Shape() && DstOk(p, d) && |d.known| <= Cap(p, pnum + 1)
      requires Tables(p, base, Cap(p, pnum + 1), d, dindex[..], dchar[..])
      requires CurOk(Cap(p, pnum + 1), d, curend) && WaitOk(base, Cap(p, pnum + 1), d, dcharp)
      requires Usable(p, i) && i < |d'.known| && d'.prev == d'.known[i] != []
      requires t < base && t < |d'.known| && Usable(p, t) && d'.known[t] != []
      requires d'.known == Known'(Cap(p, pnum + 1), d, d'.known[t][0])
      modifies this`d, this`curend, this`dcharp, dindex, dchar
      ensures d == d' && Tables(p, base, Cap(p, pnum + 1), d, dindex[..], dchar[..])
      ensures CurOk(Cap(p, pnum + 1), d, curend) && WaitOk(base, Cap(p, pnum + 1), d, dcharp)
      ensures forall k: nat :: k < DICTSZ && k + base <= i ==> dindex[..][k] == old(dindex[..])[k]
    {
      hide Tables, CurOk, WaitOk, DstOk, Cap, Caps, Usable;
      CapsOk(p, pnum);
      TablesNext(p, base, Cap(p, pnum + 1), Cap(p, pnum), d, d', dindex[..], dchar[..], dcharp, curend, i, t);
      EndAbove(p, Cap(p, pnum + 1), d, d', curend, i, d'.known[t][0]);
      StoreChar(t);
      if curend < maxend {
        curend := curend + 1;
        if curend > base - 1 {
          dcharp := curend - base;
          dindex[dcharp] := i;
          assert dindex[..] == old(dindex[..])[dcharp := i];
        }
      }
      d := d';
    }

    /** The body of the main loop for an index that is not CLEAR. */
    method Process(i: nat)
      requires Valid() && Usable(p, i) && Lookup(Cap(p, pnum + 1), d, i) != []
      modifies this, dindex, dchar
      ensures Valid() && d == Take(p, Cap(p, pnum + 1), old(d), Sym(i, false))
    {
      hide Tables, Good, Means, OutOk, CurOk, WaitOk, Caps, Take, DstOk;
      ghost var cap, capOut := Cap(p, pnum + 1), Cap(p, pnum);
      ghost var d0, d' := d, Take(p, cap, d, Sym(i, false));
      CapsOk(p, pnum);
      TakeOk(p, cap, d, Sym(i, false));
      ChainLinked(p, base, cap, d, dindex[..], dchar[..], i);
      RootOk(p, base, cap, d, dindex[..], dchar[..], i);
      var t := FindRoot(i);
      RootPassed(p, base, cap, capOut, d, out, i, t);
      PutPipe(t, false);
      ghost var syms, di := out, dindex[..];
      Enter(i, t, d');
      RootSame(di, dindex[..], base, i);
      SpawnAll(i, syms, d0);
    }

    /** The spawned bytes complete what the root begins. */
    method SpawnAll(i: nat, ghost syms: seq<Sym>, ghost d0: Dst)
      requires Shape() && DstOk(p, d) && |d.known| <= Cap(p, pnum + 1) && out == syms && i < |d.known| && Usable(p, i)
      requires Tables(p, base, Cap(p, pnum + 1), d, dindex[..], dchar[..])
      requires CurOk(Cap(p, pnum + 1), d, curend) && WaitOk(base, Cap(p, pnum + 1), d, dcharp)
      requires Good(p, Cap(p, pnum), syms) && forall t: nat :: t < |syms| ==> syms[t].index < base
      requires var o, t := Means(p, Cap(p, pnum), syms), Root(dindex[..], base, i);
               && 0 <= t < |d.known| && o.out == d0.out + d.known[t] && d.out == d0.out + d.known[i]
               && OutOk(Cap(p, pnum), d, o.(out := d.out))
      modifies this`out
      ensures Valid()
    {
      hide Tables, Good, Means, OutOk, CurOk, WaitOk, Caps, Cap;
      CapsOk(p, pnum);
      ghost var cap, capOut := Cap(p, pnum + 1), Cap(p, pnum);
      assert Lookup(cap, d, i) != [];
      ChainLinked(p, base, cap, d, dindex[..], dchar[..], i);
      Spawned(p, base, cap, capOut, d0, d, syms, dindex[..], dchar[..], i);
      CharsBelow0(p, base, cap, d, dindex[..], dchar[..], i);
      Spawn(i);
    }

    /** A whole index, which may be CLEAR. */
    method TakeWhole(i: nat)
      requires Valid() && SymOk(p, Cap(p, pnum + 1), d, Sym(i, false))
      modifies this, dindex, dchar
      ensures Valid() && d == Take(p, Cap(p, pnum + 1), old(d), Sym(i, false))
    {
      hide Valid, Take, Cap;
      if i == CLEAR && p.block { Clear(); } else { Process(i); }
    }

    /** getpipe: the next whole index; first bytes on the way are passed on. An index past the
        end of the dictionary ends the stream, in good order if it is the end mark. */
    method GetPipe(input: seq<Sym>, pos: nat, ghost nb: nat) returns (pos': nat, n: Next)
      requires Valid() && pos <= nb < |input| && d == Means(p, Cap(p, pnum + 1), input[..pos])
      requires Good(p, Cap(p, pnum + 1), input[..nb])
      requires input[nb].index > EndOf(Cap(p, pnum + 1), Means(p, Cap(p, pnum + 1), input[..nb]))
      modifies this`out, this`d
      ensures Valid()
      ensures n.Index? ==> pos < pos' <= nb && input[pos' - 1] == Sym(n.i, false)
      ensures n.Index? ==> d == Means(p, Cap(p, pnum + 1), input[..pos' - 1])
      ensures !n.Index? ==> d == Means(p, Cap(p, pnum + 1), input[..nb]) && (n.Eof? <==> input[nb].index == EOF_INDEX)
    {
      hide Tables, Passed, Good, Means, CurOk, WaitOk, Cap, DstOk;
      ghost var cap := Cap(p, pnum + 1);
      pos' := pos;
      while true
        invariant Valid() && pos <= pos' <= nb && d == Means(p, cap, input[..pos'])
        decreases nb - pos'
      {
        var s := input[pos'];
        Reading(p, cap, input, nb, pos', d, curend);
        if s.index > curend { return pos', if s.index == EOF_INDEX then Next.Eof else Bad; }
        pos' := pos' + 1;
        if !s.first { return pos', Index(s.index); }
        PassFirst(s.index);
      }
    }

    /** The main loop of a pass that reads from a pipe. */
    method RunPipe(input: seq<Sym>, ghost nb: nat) returns (ok: bool)
      requires Valid() && nb < |input| && d == Dst0(p)
      requires Good(p, Cap(p, pnum + 1), input[..nb])
      requires input[nb].index > EndOf(Cap(p, pnum + 1), Means(p, Cap(p, pnum + 1), input[..nb]))
      modifies this, dindex, dchar
      ensures Valid() && d == Means(p, Cap(p, pnum + 1), input[..nb]) && (ok <==> input[nb].index == EOF_INDEX)
    {
      hide Valid, Good, Means, Take, SymOk, Cap;
      ghost var cap := Cap(p, pnum + 1);
      var pos := 0;
      NothingRead(p, cap, input);
      while true
        invariant Valid() && pos <= nb && d == Means(p, cap, input[..pos])
        decreases nb - pos
      {
        var n;
        pos, n := GetPipe(input, pos, nb);
        if !n.Index? { return n.Eof?; }
        GoodAt(p, cap, input, nb, pos - 1);
        TakeWhole(n.i);
      }
    }
  }

  const EOF_INDEX: nat := 0xFFFF

  datatype Next = Index(i: nat) | Eof | Bad

  /** The highest index that means something. */
  function EndOf(cap: nat, d: Dst): int {
    if d.prev == [] then |d.known| - 1 else if |d.known| < cap then |d.known| else cap - 1
  }

  lemma GoodAt(p: Params, cap: nat, input: seq<Sym>, nb: nat, t: nat)
    requires t < nb <= |input| && Good(p, cap, input[..nb])
    ensures SymOk(p, cap, Means(p, cap, input[..t]), input[t])
    ensures Means(p, cap, input[..t + 1]) == Take(p, cap, Means(p, cap, input[..t]), input[t])
  {
    assert input[..nb][..t] == input[..t] && input[..t + 1][..t] == input[..t];
  }

  lemma NothingRead(p: Params, cap: nat, input: seq<Sym>)
    ensures Means(p, cap, input[..0]) == Dst0(p)
  {
  }

  lemma OkInRange(p: Params, cap: nat, d: Dst, s: Sym)
    requires DstOk(p, d) && SymOk(p, cap, d, s) && |d.known| <= cap
    ensures s.index <= EndOf(cap, d)
  {
  }

  /** What comes next is good and in range, or is the first index out of range. */
  lemma Reading(p: Params, cap: nat, input: seq<Sym>, nb: nat, t: nat, d: Dst, curend: int)
    requires t <= nb < |input| && Good(p, cap, input[..nb]) && input[nb].index > EndOf(cap, Means(p, cap, input[..nb]))
    requires d == Means(p, cap, input[..t]) && DstOk(p, d) && |d.known| <= cap && CurOk(cap, d, curend)
    ensures input[t].index > curend <==> t == nb
    ensures t < nb ==> SymOk(p, cap, d, input[t]) && Means(p, cap, input[..t + 1]) == Take(p, cap, d, input[t])
  {
    if t < nb {
      GoodAt(p, cap, input, nb, t);
      OkInRange(p, cap, d, input[t]);
    }
  }

  /** A new entry, if there is one, comes after index i. */
  lemma EndAbove(p: Params, cap: nat, d: Dst, d': Dst, curend: int, i: nat, c: byte)
    requires CurOk(cap, d, curend) && i < |d'.known| && d'.known == Known'(cap, d, c) && |d.known| <= cap
    ensures curend < cap - 1 ==> i < curend + 1
  {
  }

  lemma CharsBelow0(p: Params, base: nat, cap: nat, d: Dst, di: seq<int>, dc: seq<int>, i: nat)
    requires Tables(p, base, cap, d, di, dc) && i < |d.known| && Usable(p, i)
    ensures forall k: nat :: k < |Chars(di, dc, base, i)| ==> Firsts(Chars(di, dc, base, i))[k].index < base
  {
    ChainSpells(p, base, cap, d, di, dc, i);
    forall k: nat | k < |Chars(di, dc, base, i)| ensures Firsts(Chars(di, dc, base, i))[k].index < base {
      assert CharOk(p, base, d, Chars(di, dc, base, i)[k]);
    }
  }
}
