/**
 The pipes between the passes of decomp16: words in blocks of sixteen, a word of flags and
 fifteen indices, written and read 512 words at a time.
 */
module D16Pipe {
  import opened LzwBits
  import opened D16Meaning
  import opened D16Stage

  const BUFSZ_2: nat := 512
  const BLOCK: nat := 15

  /** The flags of some symbols as a number, the first symbol in the highest bit. */
  function Flags(ss: seq<Sym>): (f: nat)
    ensures f < Pow2(|ss|)
  {
    if ss == [] then 0 else 2 * Flags(ss[..|ss| - 1]) + if ss[|ss| - 1].first then 1 else 0
  }

  function FrameBlock(ss: seq<Sym>): seq<nat> { [Flags(ss)] + Indices(ss) }

  /** The words for whole blocks of symbols. */
  function Framed(ss: seq<Sym>): seq<nat> {
    if |ss| < BLOCK then [] else FrameBlock(ss[..BLOCK]) + Framed(ss[BLOCK..])
  }

  /** ss is made up of whole blocks. */
  predicate Whole(ss: seq<Sym>) {
    ss == [] || (|ss| >= BLOCK && Whole(ss[BLOCK..]))
  }

  lemma {:induction false} FramedSnoc(ss: seq<Sym>, b: seq<Sym>)
    requires Whole(ss) && |b| == BLOCK
    ensures Whole(ss + b) && Framed(ss + b) == Framed(ss) + FrameBlock(b)
  {
    if ss == [] {
      assert ss + b == b && b[..BLOCK] == b && b[BLOCK..] == [];
      assert FrameBlock(b) + [] == FrameBlock(b);
    } else {
      FramedSnoc(ss[BLOCK..], b);
      assert (ss + b)[..BLOCK] == ss[..BLOCK] && (ss + b)[BLOCK..] == ss[BLOCK..] + b;
    }
  }

  lemma FramedFirst(ss: seq<Sym>)
    requires Whole(ss) && |ss| >= BLOCK
    ensures Framed(ss) == FrameBlock(ss[..BLOCK]) + Framed(ss[BLOCK..])
    ensures Whole(ss[BLOCK..]) && ss == ss[..BLOCK] + ss[BLOCK..]
  {
    hide FrameBlock, Flags, Indices;
    CutAt(ss, BLOCK);
  }

  lemma CutAt(ss: seq<Sym>, k: nat)
    requires k <= |ss|
    ensures ss == ss[..k] + ss[k..]
  {
  }

  lemma {:induction false} Pow2Sum(a: nat, b: nat)
    ensures Pow2(a) * Pow2(b) == Pow2(a + b)
  {
    if a > 0 { Pow2Sum(a - 1, b); }
  }

  lemma {:induction false} FlagsFirst(ss: seq<Sym>)
    requires ss != []
    ensures Flags(ss) == (if ss[0].first then Pow2(|ss| - 1) else 0) + Flags(ss[1..])
  {
    if |ss| > 1 {
      var n := |ss| - 1;
      FlagsFirst(ss[..n]);
      assert ss[..n][1..] == ss[1..][..n - 1] && ss[1..][n - 1] == ss[n];
    } else {
      assert ss[..0] == [] && ss[1..] == [];
    }
  }

  // ---- writing ----

  class PipeWriter {
    const opbuf: array<nat>
    var opbufind: nat
    var n: nat
    var flags: nat
    var flagp: nat
    var written: seq<nat>
    /** The symbols in whole blocks, and those in the block begun. */
    ghost var full: seq<Sym>
    ghost var part: seq<Sym>

    /** A block has been begun at flagp. */
    ghost predicate Open()
      reads this, opbuf
    {
      && opbuf.Length == BUFSZ_2 && |written| % BUFSZ_2 == 0 && n == |part| <= BLOCK && Whole(full)
         && flags == Flags(part)
      && flagp % 16 == 0 && flagp + 16 <= BUFSZ_2 && opbufind == flagp + 1 + n
      && written + opbuf[..flagp] == Framed(full) && opbuf[flagp + 1..opbufind] == Indices(part)
    }

    /** The next symbol begins a block. */
    ghost predicate Between()
      reads this, opbuf
    {
      && opbuf.Length == BUFSZ_2 && |written| % BUFSZ_2 == 0 && n == 0 && part == [] && Whole(full)
      && opbufind % 16 == 0 && opbufind + 16 <= BUFSZ_2 && written + opbuf[..opbufind] == Framed(full)
    }

    ghost predicate Valid()
      reads this, opbuf
    {
      if n == 0 then Between() else Open() && n < BLOCK
    }

    ghost function Sent(): seq<Sym>
      reads this
    {
      full + part
    }

    /** Words left in the buffer. */
    ghost function Room(): int
      reads this`opbufind
    {
      if opbufind == 0 then 0 else BUFSZ_2 - opbufind
    }

    lemma Finished()
      requires Valid() && opbufind == 0
      ensures written == Framed(Sent()) && Whole(Sent()) && |written| % BUFSZ_2 == 0
    {
      assert opbuf[..0] == [] && written + [] == written && full + [] == full;
    }

    constructor ()
      ensures Valid() && Sent() == [] && written == [] && fresh(opbuf)
    {
      opbuf := new nat[BUFSZ_2];
      opbufind, n, flags, flagp, written, full, part := 0, 0, 0, 0, [], [], [];
    }

    /** Reserve the word for the flags. */
    method Begin()
      requires Between()
      modifies this`flags, this`flagp, this`opbufind
      ensures Open() && part == old(part) && opbufind == old(opbufind) + 1
    {
      flags, flagp := 0, opbufind;
      opbufind := opbufind + 1;
      assert opbuf[flagp + 1..opbufind] == Indices(part);
    }

    method Store(u: nat, first: bool)
      requires Open() && n < BLOCK
      modifies this`opbufind, this`n, this`flags, this`part, opbuf
      ensures Open() && part == old(part) + [Sym(u, first)] && opbufind == old(opbufind) + 1
    {
      hide Whole, Framed, Flags, Indices;
      ghost var buf, s := opbuf[..], Sym(u, first);
      StoredAt(buf, flagp, opbufind, u);
      PartMore(part, s);
      opbuf[opbufind] := u;
      assert opbuf[..] == buf[opbufind := u];
      opbufind, n := opbufind + 1, n + 1;
      flags := 2 * flags + if first then 1 else 0;
      part := part + [s];
    }

    /** Insert the flags, and write the buffer if it is full. */
    method Close()
      requires Open() && n == BLOCK
      modifies this, opbuf
      ensures Between() && full == old(full) + old(part) && (opbufind == 0 || opbufind == old(opbufind))
    {
      hide Whole, Framed, Flags;
      ghost var low := opbuf[..flagp];
      n := 0;
      opbuf[flagp] := flags;
      assert opbuf[..opbufind] == low + FrameBlock(part);
      FramedSnoc(full, part);
      full, part := full + part, [];
      assert written + opbuf[..opbufind] == Framed(full);
      if opbufind >= BUFSZ_2 {
        written := written + opbuf[..];
        opbufind := 0;
        assert opbuf[..512] == opbuf[..];
        assert written + opbuf[..0] == written;
      }
    }

    /** putpipe. */
    method Put(u: nat, first: bool)
      requires Valid()
      modifies this, opbuf
      ensures Valid() && Sent() == old(Sent()) + [Sym(u, first)]
      ensures opbufind == 0 || old(opbufind) < opbufind < BUFSZ_2
    {
      hide Whole, Framed, Flags, Indices;
      if n == 0 { Begin(); }
      Store(u, first);
      if n >= BLOCK { Close(); }
    }

    /** die: the stream ends with end marks, as many as fill the buffer. */
    method Die() returns (ghost k: nat)
      requires Valid()
      modifies this, opbuf
      ensures k >= 1 && written == Framed(old(Sent()) + EndMarks(k))
      ensures Whole(old(Sent()) + EndMarks(k)) && |written| % BUFSZ_2 == 0
    {
      hide Valid, Framed;
      Put(EOF_INDEX, false);
      k := 1;
      assert Sent() == old(Sent()) + EndMarks(1);
      while opbufind != 0
        invariant Valid() && opbufind < BUFSZ_2 && k >= 1 && Sent() == old(Sent()) + EndMarks(k)
        decreases Room()
      {
        Put(EOF_INDEX, false);
        MarkMore(old(Sent()), k);
        k := k + 1;
      }
      Finished();
    }
  }

  /** A word stored at the end leaves the words before it. */
  lemma StoredAt(buf: seq<nat>, flagp: nat, k: nat, u: nat)
    requires flagp < k < |buf|
    ensures buf[k := u][..flagp] == buf[..flagp] && buf[k := u][flagp + 1..k + 1] == buf[flagp + 1..k] + [u]
  {
  }

  lemma PartMore(part: seq<Sym>, s: Sym)
    ensures Indices(part + [s]) == Indices(part) + [s.index]
    ensures Flags(part + [s]) == 2 * Flags(part) + if s.first then 1 else 0
  {
    assert (part + [s])[..|part|] == part;
  }

  function EndMarks(k: nat): seq<Sym> { seq(k, _ => Sym(EOF_INDEX, false)) }

  lemma MarkMore(ss: seq<Sym>, k: nat)
    ensures ss + EndMarks(k) + [Sym(EOF_INDEX, false)] == ss + EndMarks(k + 1)
  {
  }

  // ---- reading ----

  /** The flags still to be looked at stand in the bits below the highest. */
  ghost predicate FlagsAhead(f: nat, part: seq<Sym>) {
    |part| <= BLOCK && f % 32768 == Weight(part)
  }

  function Weight(part: seq<Sym>): int
    requires |part| <= BLOCK
  {
    Flags(part) * Pow2(BLOCK - |part|)
  }

  lemma ShiftFlag(f: nat, b: bool, x: nat)
    requires f % 32768 == (if b then 16384 else 0) + x && x < 16384
    ensures var g := (2 * f) % 65536; (g >= 32768 <==> b) && g % 32768 == 2 * x
  {
    assert (2 * f) % 65536 == 2 * (f % 32768);
  }

  /** The first flag of those ahead weighs 16384. */
  lemma FlagsWeigh(part: seq<Sym>) returns (x: nat)
    requires 1 <= |part| <= BLOCK
    ensures Weight(part) == (if part[0].first then 16384 else 0) + x && x < 16384 && Weight(part[1..]) == 2 * x
  {
    hide Pow2, Flags;
    var r := |part|;
    var a, b, t := Flags(part[1..]), Pow2(r - 1), Pow2(BLOCK - r);
    FlagsFirst(part);
    Pow2Sum(r - 1, BLOCK - r);
    Fourteen();
    Double(BLOCK - r);
    x := a * t;
    MulLess(a, b, t);
    MulSum(b, a, t);
    MulTwo(a, t);
  }

  lemma Fourteen()
    ensures Pow2(14) == 16384
  {
  }

  lemma Double(n: nat)
    ensures Pow2(n + 1) == 2 * Pow2(n)
  {
  }

  lemma MulTwo(a: nat, t: nat)
    ensures a * (2 * t) == 2 * (a * t)
  {
  }

  lemma MulLess(a: nat, b: nat, t: nat)
    requires a < b && t > 0
    ensures a * t < b * t
  {
  }

  lemma MulSum(b: nat, a: nat, t: nat)
    ensures (b + a) * t == b * t + a * t
  {
  }

  /** Shifting the flags brings the next one to the sign bit. */
  lemma NextFlag(f: nat, part: seq<Sym>)
    requires FlagsAhead(f, part) && part != []
    ensures var g := (2 * f) % 65536; (g >= 32768 <==> part[0].first) && FlagsAhead(g, part[1..])
  {
    hide Weight;
    var x := FlagsWeigh(part);
    ShiftFlag(f, part[0].first, x);
  }

  class PipeReader {
    const data: seq<nat>
    const ipbuf: array<nat>
    /** How many words have been read from the pipe. */
    var pos: nat
    var ipbufind: nat
    var n: nat
    var flags: nat
    /** The symbols still to come: in the block begun, and after it. */
    ghost var part: seq<Sym>
    ghost var later: seq<Sym>

    ghost predicate Valid()
      reads this, ipbuf
    {
      && ipbuf.Length == BUFSZ_2 && Whole(later) && n == |part| <= BLOCK && FlagsAhead(flags, part)
      && ipbufind + n <= BUFSZ_2 && (ipbufind + n) % 16 == 0 && pos <= |data| && |data| % BUFSZ_2 == 0
         && pos % BUFSZ_2 == 0
      && ipbuf[ipbufind..ipbufind + n] == Indices(part)
      && ipbuf[ipbufind + n..] + data[pos..] == Framed(later)
    }

    ghost function Rest(): seq<Sym>
      reads this
    {
      part + later
    }

    constructor (words: seq<nat>, ghost syms: seq<Sym>)
      requires words == Framed(syms) && Whole(syms) && |words| % BUFSZ_2 == 0
      ensures Valid() && Rest() == syms && fresh(ipbuf)
    {
      data := words;
      ipbuf := new nat[BUFSZ_2];
      pos, ipbufind, n, flags := 0, BUFSZ_2, 0, 0;
      part, later := [], syms;
      new;
      NoFlags();
      hide Framed, Whole, Weight;
      assert ipbuf[BUFSZ_2..] == [] && data[0..] == data && [] + data == data;
    }

    /** Read a buffer of words from the pipe. */
    method Refill()
      requires Valid() && n == 0 && ipbufind == BUFSZ_2 && pos < |data|
      modifies this`pos, this`ipbufind, ipbuf
      ensures Valid() && ipbufind == 0 && Rest() == old(Rest())
    {
      hide Framed, Whole, FlagsAhead;
      assert pos + BUFSZ_2 <= |data|;
      assert ipbuf[ipbufind..] + data[pos..] == data[pos..];
      Fill();
      ipbufind := 0;
      Joined(data, pos, ipbuf[..]);
      assert ipbuf[0..0] == Indices(part) && ipbuf[0..] == ipbuf[..];
      pos := pos + BUFSZ_2;
    }

    method Fill()
      requires ipbuf.Length == BUFSZ_2 && pos + BUFSZ_2 <= |data|
      modifies ipbuf
      ensures ipbuf[..] == data[pos..pos + BUFSZ_2]
    {
      for i := 0 to BUFSZ_2
        invariant forall k: nat :: k < i ==> ipbuf[k] == data[pos + k]
      {
        ipbuf[i] := data[pos + i];
      }
    }

    /** The flags of the next block. */
    method NextBlock()
      requires Valid() && n == 0 && |later| >= BLOCK && ipbufind < BUFSZ_2
      modifies this`ipbufind, this`flags, this`n, this`part, this`later
      ensures Valid() && n == BLOCK && Rest() == old(Rest())
    {
      hide Framed, Whole, Flags, FlagsAhead, FrameBlock, Indices;
      ghost var b, buf, k := later[..BLOCK], ipbuf[..], ipbufind;
      FramedFirst(later);
      assert buf[k..] == ipbuf[k..];
      AllAhead(b);
      BlockAhead(buf, k, data[pos..], b, Framed(later[BLOCK..]));
      flags := ipbuf[ipbufind];
      ipbufind, n := ipbufind + 1, BLOCK;
      assert part + later == later;
      part, later := b, later[BLOCK..];
      assert ipbuf[ipbufind..ipbufind + n] == buf[k + 1..k + 16] && ipbuf[ipbufind + n..] == buf[k + 16..];
    }

    /** The reading part of getpipe: the next symbol, if there is one. */
    method Get() returns (ok: bool, s: Sym)
      requires Valid()
      modifies this, ipbuf
      ensures Valid() && (ok <==> old(Rest()) != [])
      ensures ok ==> old(Rest()) == [s] + Rest()
    {
      hide Framed, Whole, Weight;
      s := Sym(0, false);
      if n <= 0 {
        AtEnd();
        if ipbufind >= BUFSZ_2 {
          if pos >= |data| { return false, s; }
          Refill();
          AtEnd();
        }
        NextBlock();
      }
      s := Shift();
      ok := true;
    }

    /** The next index of a block, and its flag. */
    method Shift() returns (s: Sym)
      requires Valid() && n > 0
      modifies this`flags, this`ipbufind, this`n, this`part
      ensures Valid() && old(Rest()) == [s] + Rest()
    {
      hide Framed, Whole, FlagsAhead, Weight;
      var u := ipbuf[ipbufind];
      NextFlag(flags, part);
      IndexAhead(ipbuf[..], ipbufind, part);
      flags := (2 * flags) % 65536;
      s := Sym(u, flags >= 32768);
      ipbufind, n := ipbufind + 1, n - 1;
      assert part == [s] + part[1..];
      part := part[1..];
    }

    /** Words are left exactly if symbols are. */
    lemma AtEnd()
      requires Valid() && n == 0
      ensures (ipbufind == BUFSZ_2 && pos == |data|) <==> later == []
      ensures later != [] ==> |later| >= BLOCK
    {
    }
  }

  lemma Joined(data: seq<nat>, pos: nat, buf: seq<nat>)
    requires pos + BUFSZ_2 <= |data| && buf == data[pos..pos + BUFSZ_2]
    ensures buf + data[pos + BUFSZ_2..] == data[pos..]
  {
  }

  lemma BlockAhead(buf: seq<nat>, k: nat, more: seq<nat>, b: seq<Sym>, rest: seq<nat>)
    requires k + 16 <= |buf| && |b| == BLOCK && buf[k..] + more == FrameBlock(b) + rest
    ensures buf[k] == Flags(b) && buf[k + 1..k + 16] == Indices(b) && buf[k + 16..] + more == rest
  {
    hide Flags;
    var all := buf[k..] + more;
    assert all[0] == buf[k] && all[1..16] == buf[k + 1..k + 16] && all[16..] == buf[k + 16..] + more;
    var t := FrameBlock(b) + rest;
    assert t[1..16] == Indices(b) && t[16..] == rest;
  }

  lemma IndexAhead(buf: seq<nat>, k: nat, part: seq<Sym>)
    requires part != [] && k + |part| <= |buf| && buf[k..k + |part|] == Indices(part)
    ensures buf[k] == part[0].index && buf[k + 1..k + |part|] == Indices(part[1..])
  {
    assert buf[k] == buf[k..k + |part|][0] && buf[k + 1..k + |part|] == buf[k..k + |part|][1..];
    assert Indices(part)[1..] == Indices(part[1..]);
  }

  lemma NoFlags()
    ensures Weight([]) == 0 && FlagsAhead(0, [])
  {
  }

  lemma AllAhead(part: seq<Sym>)
    requires |part| == BLOCK
    ensures FlagsAhead(Flags(part), part)
  {
    assert Pow2(5) == 32;
    assert Pow2(10) == 1024;
    assert Pow2(15) == 32768;
  }
}
