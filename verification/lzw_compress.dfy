/**
 compress: the block writer (output), the double-hashed string table, the adaptive
 clear (cl_block) and the main loop.
 */
module LzwCompress {
  import opened LzwBits
  import opened LzwSpec
  import Hash = LzwHash

  const HSIZE: nat := Hash.HSIZE
  const CHECK_GAP: nat := 10000

  /** A code written by output: its value, its width and where it lies. */
  datatype Tok = Tok(code: nat, w: nat, start: nat, off: nat)

  /** The code is in the bytes written, or in the block being filled. */
  predicate TokOk(t: Tok, out: seq<byte>, buf: seq<byte>, w: nat, offset: nat)
    requires |buf| == BITS && w <= BITS
  {
    && t.off + t.w <= 8 * t.w
    && (|| (t.start + t.w <= |out| && Field(out[t.start..t.start + t.w], t.off, t.w) == t.code)
        || (t.start == |out| && t.w == w && t.off + t.w <= offset <= 8 * w && Field(buf, t.off, t.w) == t.code))
  }

  lemma FlushKeeps(t: Tok, out: seq<byte>, buf: seq<byte>, w: nat, offset: nat)
    requires |buf| == BITS && INIT_BITS <= w <= BITS && TokOk(t, out, buf, w, offset)
    ensures t.start + t.w <= |out + buf[..w]|
    ensures Field((out + buf[..w])[t.start..t.start + t.w], t.off, t.w) == t.code
  {
    var out' := out + buf[..w];
    if t.start + t.w <= |out| {
      assert out'[t.start..t.start + t.w] == out[t.start..t.start + t.w];
    } else {
      assert out'[t.start..t.start + t.w] == buf[..w];
      SameField(buf[..w], buf, t.off, t.w);
    }
  }

  /** Storing a code leaves every code in the block readable. */
  lemma PutKeeps(t: Tok, out: seq<byte>, buf: seq<byte>, w: nat, offset: nat, code: nat)
    requires |buf| == BITS && INIT_BITS <= w <= BITS && offset + w <= 8 * w && code < Pow2(w)
    requires TokOk(t, out, buf, w, offset)
    ensures TokOk(t, out, PutCode(buf, offset, w, code), w, offset + w)
  {
    PutCodeField(buf, offset, w, code);
  }

  lemma PutNew(out: seq<byte>, buf: seq<byte>, w: nat, offset: nat, code: nat)
    requires |buf| == BITS && INIT_BITS <= w <= BITS && offset + w <= 8 * w && code < Pow2(w)
    ensures TokOk(Tok(code, w, |out|, offset), out, PutCode(buf, offset, w, code), w, offset + w)
  {
    PutCodeField(buf, offset, w, code);
  }

  /** fcode: the key under which the string of ent followed by c is filed. */
  function Key(p: Params, c: byte, ent: nat): nat { Shl(c, p.maxbits) + ent }

  lemma {:induction false} ShlKeyInjective(m: nat, c: nat, e: nat, c': nat, e': nat)
    requires e < Pow2(m) && e' < Pow2(m) && Shl(c, m) + e == Shl(c', m) + e'
    ensures c == c' && e == e'
  {
    if m > 0 { ShlKeyInjective(m - 1, c, e / 2, c', e' / 2); }
  }

  /** x ^ y */
  function Xor(x: nat, y: nat): nat
    decreases x + y
  {
    if x == 0 then y else if y == 0 then x else
    (if x % 2 != y % 2 then 1 else 0) + 2 * Xor(x / 2, y / 2)
  }

  lemma {:induction false} XorBound(x: nat, y: nat, k: nat)
    requires x < Pow2(k) && y < Pow2(k)
    ensures Xor(x, y) < Pow2(k)
  {
    if k > 0 { XorBound(x / 2, y / 2, k - 1); }
  }

  /** What a hash slot holds: the key of (c, ent) and the code of that string. */
  datatype Entry = Entry(c: byte, ent: nat)

  predicate EntryOk(p: Params, d: seq<Str>, key: int, code: int, e: Entry) {
    && Known(p, d, code) && Known(p, d, e.ent)
    && key == Key(p, e.c, e.ent)
    && d[code] == d[e.ent] + [e.c]
  }

  // ---- The items written so far and the writer's state ----

  function TokOf(p: Params, items: seq<Item>, i: nat): Tok
    requires i < |items|
  {
    var st := After(p, items[..i]);
    Tok(CodeOf(items[i]), st.w, st.start, st.off)
  }

  /** The codes written are those of the items, each where the decoder will look. */
  predicate InStep(p: Params, items: seq<Item>, toks: seq<Tok>, w: nat, start: nat, off: nat) {
    && |toks| == |items|
    && (forall i: nat :: i < |items| ==> toks[i] == TokOf(p, items, i))
    && var st := After(p, items);
    st.w == w && st.start == start && st.off == off
  }

  lemma InStepSnoc(p: Params, items: seq<Item>, toks: seq<Tok>, it: Item, w: nat, start: nat, off: nat)
    requires |toks| == |items| + 1
    requires InStep(p, items, toks[..|items|], After(p, items).w, After(p, items).start, After(p, items).off)
    requires var st := After(p, items); toks[|items|] == Tok(CodeOf(it), st.w, st.start, st.off)
    requires var st := Step(p, After(p, items), it); st.w == w && st.start == start && st.off == off
    ensures InStep(p, items + [it], toks, w, start, off)
  {
    var items' := items + [it];
    assert items'[..|items|] == items;
    forall i: nat | i < |items'| ensures toks[i] == TokOf(p, items', i) {
      if i < |items| {
        assert items'[..i] == items[..i];
        assert toks[..|items|][i] == TokOf(p, items, i);
      }
    }
  }

  lemma ValidSnoc(p: Params, items: seq<Item>, it: Item)
    requires Valid(p, items) && ValidItem(p, After(p, items), it)
    ensures Valid(p, items + [it])
    ensures After(p, items + [it]).dict == DictAfter(p, After(p, items), it)
    ensures After(p, items + [it]).prev == if it.Clear? then After(p, items).prev else it.str
    ensures Text(items + [it]) == Text(items) + StrOf(it)
  {
    var items' := items + [it];
    assert items'[..|items|] == items;
    forall i: nat | i < |items'| ensures ValidItem(p, After(p, items'[..i]), items'[i]) {
      if i < |items| { assert items'[..i] == items[..i]; }
    }
  }

  lemma EndKeeps(t: Tok, st: St, out: seq<byte>, buf: seq<byte>, w: nat, offset: nat)
    requires |buf| == BITS && INIT_BITS <= w <= BITS && offset <= 8 * w && TokOk(t, out, buf, w, offset)
    requires t.w == st.w && t.start == st.start && t.off == st.off && INIT_BITS <= t.w
    ensures CodeAt(out + buf[..Ceil8(offset)], st, t.code)
  {
    hide LzwBits.Field;
    var n := Ceil8(offset);
    var out' := out + buf[..n];
    if t.start + t.w <= |out| {
      assert out'[t.start..t.start + t.w] == out[t.start..t.start + t.w];
    } else {
      assert out'[t.start..t.start + n] == buf[..n];
      SameField(buf[..n], buf, t.off, t.w);
    }
  }

  lemma ClearFits(w: nat)
    requires INIT_BITS <= w
    ensures CLEAR < Pow2(w)
  {
    assert Pow2(9) == 512;
    Pow2Le(9, w);
  }

  /** Bytes read per byte written, with 8 fractional bits. */
  function Rate(inCount: nat, bytesOut: nat): int
    requires bytesOut > 0
  {
    if inCount > 0x7fffff then
      if bytesOut / 256 == 0 then 0x7fffffff else inCount / (bytesOut / 256)
    else
      (inCount * 256) / bytesOut
  }

  class Compressor {
    const p: Params
    const htab: array<int>
    const codetab: array<int>
    const buf: array<byte>
    var freeEnt: nat
    var nBits: nat
    var maxcode: nat
    var clearFlg: bool
    var offset: nat
    var bytesOut: nat
    var inCount: nat
    var ratio: int
    var checkpoint: nat
    var out: seq<byte>
    /** Every code written so far. */
    ghost var toks: seq<Tok>
    /** For each filled slot, what it stands for. */
    ghost var entries: map<int, Entry>

    constructor (p: Params)
      requires p.Ok()
      ensures this.p == p && Shape() && fresh(htab) && fresh(codetab) && fresh(buf)
    {
      this.p := p;
      htab := new int[HSIZE];
      codetab := new int[HSIZE];
      buf := new byte[BITS];
      freeEnt, nBits, maxcode, clearFlg, offset := 0, INIT_BITS, 511, false, 0;
      bytesOut, inCount, ratio, checkpoint, out := 0, 1, 0, CHECK_GAP, [];
      toks, entries := [], map[];
    }

    ghost predicate Shape() {
      p.Ok() && htab.Length == HSIZE && codetab.Length == HSIZE && buf.Length == BITS
      && htab != codetab && htab as object != buf && codetab as object != buf
    }

    /** The block writer's state agrees with the codes written. */
    ghost predicate Writer()
      reads this, buf
    {
      && Shape()
      && INIT_BITS <= nBits <= BITS && (nBits == BITS ==> p.maxbits == BITS)
      && maxcode == p.MaxCode(nBits)
      && offset + nBits <= 8 * nBits && Slot(offset, nBits)
      && freeEnt <= p.Max()
      && bytesOut > 0
      && forall t :: t in toks ==> TokOk(t, out, buf[..], nBits, offset)
    }

    /** Each filled slot is sound for dictionary d, and few enough are filled. */
    ghost predicate Table(d: seq<Str>)
      reads this, htab, codetab
    {
      && Shape()
      && (forall i :: i in entries ==> 0 <= i < HSIZE)
      && |entries.Keys| + 256 <= |d|
      && forall i: int :: 0 <= i < HSIZE && htab[i] >= 0 ==>
           i in entries && EntryOk(p, d, htab[i], codetab[i], entries[i])
    }

    /** Write the whole block, garbage behind the last code included. */
    method WriteBlock()
      requires Shape() && INIT_BITS <= nBits <= BITS
      requires forall t :: t in toks ==> TokOk(t, out, buf[..], nBits, offset)
      modifies this`out, this`bytesOut, this`offset
      ensures out == old(out) + buf[..nBits] && offset == 0 && bytesOut == old(bytesOut) + nBits
      ensures forall t, w: nat :: t in toks && w <= BITS ==> TokOk(t, out, buf[..], w, 0)
    {
      forall t | t in toks
        ensures t.start + t.w <= |out + buf[..nBits]|
        ensures Field((out + buf[..nBits])[t.start..t.start + t.w], t.off, t.w) == t.code
      {
        FlushKeeps(t, out, buf[..], nBits, offset);
        assert buf[..][..nBits] == buf[..nBits];
      }
      out, bytesOut, offset := out + buf[..nBits], bytesOut + nBits, 0;
    }

    /** The stores of output, one code at the current offset. */
    method Store(code: nat)
      requires Shape() && INIT_BITS <= nBits <= BITS && offset + nBits <= 8 * nBits
      modifies buf
      ensures buf[..] == PutCode(old(buf[..]), offset, nBits, code)
    {
      ghost var b0 := buf[..];
      var bp, rOff, bits, c := offset / 8, offset % 8, nBits, code;
      buf[bp] := FirstByte(buf[bp], rOff, c);
      bp, bits, c := bp + 1, bits - (8 - rOff), Shr(c, 8 - rOff);
      if bits >= 8 {
        buf[bp] := Char(c);
        bp, bits, c := bp + 1, bits - 8, Shr(c, 8);
      }
      if bits != 0 {
        buf[bp] := Char(c);
      }
      assert buf[..] == PutCode(b0, offset, nBits, code);
    }

    /** Every code written is where it was put. */
    ghost predicate Held()
      reads this, buf
    {
      && Shape() && INIT_BITS <= nBits <= BITS && offset + nBits <= 8 * nBits && Slot(offset, nBits) && bytesOut > 0
      && forall t :: t in toks ==> TokOk(t, out, buf[..], nBits, offset)
    }

    /** One code goes into the block, which is written if that fills it. */
    method PutInBlock(code: nat)
      requires Held() && code < Pow2(nBits)
      modifies this`offset, this`bytesOut, this`out, this`toks, buf
      ensures Held() && toks == old(toks) + [Tok(code, nBits, |old(out)|, old(offset))]
      ensures var full := old(offset) + nBits == 8 * nBits;
              |out| == |old(out)| + (if full then nBits else 0) && offset == if full then 0 else old(offset) + nBits
      ensures offset == 0 ==> forall t, w: nat :: t in toks && w <= BITS ==> TokOk(t, out, buf[..], w, 0)
    {
      hide TokOk, LzwBits.PutCode, Params.Ok, LzwBits.Pow2;
      ghost var b0 := buf[..];
      Store(code);
      forall t | t in toks ensures TokOk(t, out, buf[..], nBits, offset + nBits) {
        PutKeeps(t, out, b0, nBits, offset, code);
      }
      PutNew(out, b0, nBits, offset, code);
      toks := toks + [Tok(code, nBits, |out|, offset)];
      offset := offset + nBits;
      if offset == 8 * nBits { WriteBlock(); }
    }

    /** output: put one code in the block, write the block when it is full or when the
        width changes. */
    method Output(code: nat)
      requires Writer() && code < Pow2(nBits)
      modifies this`offset, this`nBits, this`maxcode, this`clearFlg, this`bytesOut, this`out, this`toks, buf
      ensures Writer()
      ensures toks == old(toks) + [Tok(code, old(nBits), |old(out)|, old(offset))]
      ensures !clearFlg
      ensures nBits == if old(clearFlg) then INIT_BITS
                       else if freeEnt > old(maxcode) then old(nBits) + 1 else old(nBits)
      ensures var done := old(offset) + old(nBits) == 8 * old(nBits) || freeEnt > old(maxcode) || old(clearFlg);
              |out| == |old(out)| + (if done then old(nBits) else 0)
              && offset == if done then 0 else old(offset) + old(nBits)
    {
      hide TokOk, Params.Ok, LzwBits.Pow2;
      PutInBlock(code);
      if freeEnt > maxcode || clearFlg {
        if offset > 0 { WriteBlock(); }
        WideOk(p, nBits, freeEnt);
        if clearFlg {
          nBits, maxcode, clearFlg := INIT_BITS, 511, false;
        } else {
          nBits := nBits + 1;
          maxcode := if nBits == p.maxbits then p.Max() else Pow2(nBits) - 1;
        }
      }
    }

    /** cl_hash: empty every slot, sixteen at a time from the top, then the rest. */
    method ClHash()
      requires Shape()
      modifies htab, this`entries
      ensures forall i :: 0 <= i < HSIZE ==> htab[i] == -1
      ensures entries == map[]
    {
      var hp: nat, i: int := HSIZE, HSIZE - 16;
      while i >= 0
        invariant i + 16 == hp && hp <= HSIZE && i >= -16
        invariant forall k :: hp <= k < HSIZE ==> htab[k] == -1
      {
        for k := 1 to 17
          invariant forall j :: hp - k < j < HSIZE ==> htab[j] == -1
        {
          htab[hp - k] := -1;
        }
        hp, i := hp - 16, i - 16;
      }
      i := i + 16;
      while i > 0
        invariant 0 <= i == hp
        invariant forall k :: hp <= k < HSIZE ==> htab[k] == -1
      {
        hp, i := hp - 1, i - 1;
        htab[hp] := -1;
      }
      entries := map[];
    }

    /** The probe of compress's main loop: either a slot with the key of (c, ent), or the
        slot that the loop treats as free, which is empty or holds key 0. */
    method Probe(c: byte, ent: nat, ghost d: seq<Str>) returns (found: bool, i: nat)
      requires Table(d) && |d| <= p.Max() && ent < p.Max()
      ensures i < HSIZE
      ensures found ==> htab[i] == Key(p, c, ent)
      ensures !found ==> htab[i] <= 0 && htab[i] != Key(p, c, ent)
    {
      var fcode := Key(p, c, ent);
      hide EntryOk, Key, FirstSlot, Params.Max, Params.Ok;
      FirstSlotBound(p, c, ent);
      i := FirstSlot(c, ent);
      if htab[i] == fcode { return true, i; }
      if htab[i] < 0 { return false, i; }
      var disp: nat := if i == 0 then 1 else HSIZE - i;
      ghost var i0, k, visited := i, 0, {};
      while true
        invariant i < HSIZE && i == Hash.Slot(i0, disp, k)
        invariant htab[i] >= 0 && (k > 0 ==> htab[i] > 0)
        invariant |visited| == k && forall j :: j in visited ==> j in entries.Keys
        invariant forall j :: j in visited ==> exists m: nat :: m < k && j == Hash.Slot(i0, disp, m)
        invariant k < HSIZE
        decreases HSIZE - k
      {
        if i in visited {
          var m: nat :| m < k && i == Hash.Slot(i0, disp, m);
          Hash.SlotsDistinct(i0, disp, m, k);
        }
        visited, k := visited + {i}, k + 1;
        SubsetSize(visited, entries.Keys);
        var n: int := i - disp;
        i := if n < 0 then n + HSIZE else n;
        if htab[i] == fcode { return true, i; }
        if htab[i] <= 0 { return false, i; }
      }
    }

    /** The writer has written exactly the items. */
    ghost predicate Wrote(items: seq<Item>)
      reads this, buf
    {
      Writer() && InStep(p, items, toks, nBits, |out|, offset)
    }

    /** output, seen as the next item of the stream. */
    method Emit(code: nat, ghost items: seq<Item>, ghost it: Item)
      requires Wrote(items) && code == CodeOf(it) && code < Pow2(nBits)
      requires clearFlg == it.Clear?
      requires it.Code? ==> freeEnt == |DictAfter(p, After(p, items), it)|
      modifies this`offset, this`nBits, this`maxcode, this`clearFlg, this`bytesOut, this`out, this`toks, buf
      ensures Wrote(items + [it]) && !clearFlg
    {
      Output(code);
      assert toks[..|items|] == old(toks);
      InStepSnoc(p, items, toks, it, nBits, |out|, offset);
    }

    /** cl_block: clear the table if the compression ratio has not improved. */
    method ClBlock(ghost items: seq<Item>) returns (cleared: bool)
      requires Wrote(items) && !clearFlg && p.block && Valid(p, items)
      requires ValidItem(p, After(p, items), Clear)
      modifies this`offset, this`nBits, this`maxcode, this`clearFlg, this`bytesOut, this`out, this`toks,
               this`ratio, this`checkpoint, this`freeEnt, this`entries, buf, htab
      ensures !clearFlg
      ensures cleared ==> Wrote(items + [Clear]) && freeEnt == FIRST && entries == map[]
                          && forall i :: 0 <= i < HSIZE ==> htab[i] == -1
      ensures !cleared ==> Wrote(items) && freeEnt == old(freeEnt) && entries == old(entries)
                           && forall i :: 0 <= i < HSIZE ==> htab[i] == old(htab[i])
    {
      hide InStep, TokOk, Rate, ValidItem, Valid;
      checkpoint := inCount + CHECK_GAP;
      var rat := Rate(inCount, bytesOut);
      if rat > ratio {
        ratio := rat;
        cleared := false;
      } else {
        ratio := 0;
        ClHash();
        MaxBounds(p);
        freeEnt, clearFlg := FIRST, true;
        ClearFits(nBits);
        Emit(CLEAR, items, Clear);
        cleared := true;
      }
    }

    /** The encoder is in the middle of string cur, whose code is ent. */
    ghost predicate Encoding(items: seq<Item>, d: seq<Str>, cur: Str, ent: nat)
      reads this, buf, htab, codetab
    {
      && Valid(p, items) && Wrote(items) && !clearFlg && cur != []
      && d == Extend(p, After(p, items).dict, After(p, items).prev, cur[0])
      && freeEnt == |d| && Known(p, d, ent) && d[ent] == cur
      && |d| >= (if p.block then FIRST else 256)
      && (forall i: nat :: i < 256 ==> d[i] == [i as byte])
      && Table(d)
    }

    /** A hit continues the string. */
    lemma HitSound(d: seq<Str>, c: byte, ent: nat, i: nat)
      requires Table(d) && |d| <= p.Max() && Known(p, d, ent) && i < HSIZE && htab[i] == Key(p, c, ent)
      ensures Known(p, d, codetab[i]) && d[codetab[i]] == d[ent] + [c]
    {
      var e := entries[i];
      ShlKeyInjective(p.maxbits, c, ent, e.c, e.ent);
    }

    /** Filing the new string in a free slot keeps the table sound. */
    method File(i: nat, c: byte, ent: nat, ghost d: seq<Str>)
      requires Table(d) && Known(p, d, ent) && i < HSIZE && freeEnt == |d| < p.Max()
      requires p.block ==> |d| >= FIRST
      modifies htab, codetab, this`freeEnt, this`entries
      ensures Table(d + [d[ent] + [c]]) && freeEnt == |d| + 1
    {
      codetab[i] := freeEnt;
      freeEnt := freeEnt + 1;
      htab[i] := Key(p, c, ent);
      entries := entries[i as int := Entry(c, ent)];
      ghost var d' := d + [d[ent] + [c]];
      assert entries.Keys == old(entries).Keys + {i as int};
      forall k: int | 0 <= k < HSIZE && htab[k] >= 0
        ensures k in entries && EntryOk(p, d', htab[k], codetab[k], entries[k])
      {
        if k != i { assert EntryOk(p, d, htab[k], codetab[k], entries[k]); }
      }
    }

    /** A miss: put out the code of the string, start a new one with c, and file the
        string that was not found, or clear a full table. */
    method Miss(c: byte, ent: nat, i: nat, ghost items: seq<Item>, ghost d: seq<Str>, ghost cur: Str)
      returns (ghost items': seq<Item>, ghost d': seq<Str>)
      requires Encoding(items, d, cur, ent) && i < HSIZE
      modifies this`offset, this`nBits, this`maxcode, this`clearFlg, this`bytesOut, this`out, this`toks,
               this`ratio, this`checkpoint, this`freeEnt, this`entries, buf, htab, codetab
      ensures Encoding(items', d', [c], c)
      ensures Text(items') == Text(items) + cur
    {
      hide TokOf, TokOk, Valid, EntryOk, Params.MaxCode, After, Text, Step, Slot;
      ghost var it := Code(ent, cur);
      CodeFits(p, items, cur[0], ent);
      ValidSnoc(p, items, it);
      Emit(ent, items, it);
      items' := items + [it];
      if freeEnt < p.Max() {
        d' := d + [cur + [c]];
        File(i, c, ent, d);
      } else {
        d' := d;
        if inCount >= checkpoint && p.block {
          var cleared := ClBlock(items');
          if cleared {
            MaxBounds(p);
            ValidSnoc(p, items', Clear);
            items', d' := items' + [Clear], Singles(256) + [cur + [c]];
          }
        }
      }
    }

    /** One turn of the main loop: the string goes on if it is in the table with c
        behind it, and is put out otherwise. */
    method Feed(c: byte, ent: nat, ghost items: seq<Item>, ghost d: seq<Str>, ghost cur: Str)
      returns (ent': nat, ghost items': seq<Item>, ghost d': seq<Str>, ghost cur': Str)
      requires Encoding(items, d, cur, ent)
      modifies this, buf, htab, codetab
      ensures Encoding(items', d', cur', ent')
      ensures Text(items') + cur' == Text(items) + cur + [c]
    {
      hide TokOf, TokOk, Valid, EntryOk, Params.MaxCode, Text, Step, Slot, After, InStep;
      inCount := inCount + 1;
      CodeFits(p, items, cur[0], ent);
      var found, i := Probe(c, ent, d);
      if found {
        HitSound(d, c, ent, i);
        ent', items', d', cur' := codetab[i], items, d, cur + [c];
      } else {
        items', d' := Miss(c, ent, i, items, d, cur);
        ent', cur' := c, [c];
      }
    }

    /** The main loop and the final code. */
    method EncodeAll(text: seq<byte>) returns (ghost items: seq<Item>)
      requires text != [] && Ready()
      modifies this, htab, codetab, buf
      ensures Wrote(items) && Valid(p, items) && Text(items) == text
    {
      hide Encoding, Ready, Wrote, Text, Valid;
      items := [];
      var ent: nat, k := text[0], 1;
      ghost var d, cur := InitDict(p), [text[0]];
      StartEncoding(text[0]);
      while k < |text|
        invariant 1 <= k <= |text|
        invariant Encoding(items, d, cur, ent) && Text(items) + cur == text[..k]
      {
        assert text[..k + 1] == text[..k] + [text[k]];
        ent, items, d, cur := Feed(text[k], ent, items, d, cur);
        k := k + 1;
      }
      items := Last(ent, items, d, cur);
      assert text[..k] == text;
    }

    method Last(ent: nat, ghost items: seq<Item>, ghost d: seq<Str>, ghost cur: Str) returns (ghost items': seq<Item>)
      requires Encoding(items, d, cur, ent)
      modifies this, buf
      ensures Wrote(items') && Valid(p, items') && Text(items') == Text(items) + cur
    {
      hide TokOf, TokOk, Valid, Table, Params.MaxCode, Text, Step, Slot, After;
      ghost var it := Code(ent, cur);
      CodeFits(p, items, cur[0], ent);
      ValidSnoc(p, items, it);
      Emit(ent, items, it);
      items' := items + [it];
    }

    /** Nothing written, nothing in the table. */
    ghost predicate Ready()
      reads this, buf, htab, codetab
    {
      Wrote([]) && !clearFlg && freeEnt == |InitDict(p)| && Table(InitDict(p))
    }

    lemma StartEncoding(c: byte)
      requires Ready()
      ensures Encoding([], InitDict(p), [c], c) && Text([]) == []
    {
      hide TokOk, EntryOk, Params.MaxCode, Slot;
    }

    method Begin()
      requires Shape()
      modifies this, htab
      ensures Ready()
    {
      hide Wrote, Table, InitDict;
      offset, bytesOut, clearFlg, ratio, inCount, checkpoint := 0, 3, false, 0, 1, CHECK_GAP;
      nBits, maxcode, out, toks := INIT_BITS, 511, [], [];
      freeEnt := if p.block then FIRST else 256;
      ClHash();
      NothingWritten();
      NothingFiled();
    }

    lemma NothingWritten()
      requires Shape() && offset == 0 && bytesOut == 3 && nBits == INIT_BITS && maxcode == 511
      requires out == [] && toks == []
      requires freeEnt == if p.block then FIRST else 256
      ensures Wrote([]) && freeEnt == |InitDict(p)|
    {
      hide TokOk, LzwBits.Pow2, Params.Max, TokOf;
      MaxBounds(p);
    }

    lemma NothingFiled()
      requires Shape() && entries == map[] && forall i :: 0 <= i < HSIZE ==> htab[i] == -1
      ensures Table(InitDict(p))
    {
    }

    /** output(-1): write the bytes that hold the last codes. */
    method Finish(ghost items: seq<Item>)
      requires Wrote(items)
      modifies this`out, this`bytesOut, this`offset
      ensures Packed(p, items, out)
    {
      hide TokOk, CodeAt, After, Slot, Params.MaxCode;
      var n := Ceil8(offset);
      forall i: nat | i < |items|
        ensures CodeAt(out + buf[..n], After(p, items[..i]), CodeOf(items[i]))
      {
        assert toks[i] == TokOf(p, items, i) && toks[i] in toks;
        SaneAfter(p, items[..i]);
        EndKeeps(toks[i], After(p, items[..i]), out, buf[..], nBits, offset);
        assert buf[..][..n] == buf[..n];
      }
      out, bytesOut, offset := out + buf[..n], bytesOut + n, 0;
    }

    /** compress: every output is a compressed form of the text. */
    method Compress(text: seq<byte>) returns (file: seq<byte>, ghost items: seq<Item>)
      requires Shape()
      modifies this, htab, codetab, buf
      ensures |file| >= 3 && file[..3] == Header(p)
      ensures IsCompressed(p, text, items, file[3..])
    {
      hide Packed, Wrote, Table, InitDict;
      Begin();
      items := [];
      if text != [] {
        items := EncodeAll(text);
      }
      Finish(items);
      file := Header(p) + out;
      assert file[3..] == out;
    }
  }

  lemma SubsetSize(a: set<int>, b: set<int>)
    requires a <= b
    ensures |a| <= |b|
  {
    assert a + (b - a) == b;
  }

  /** i = (c << hshift) ^ ent; with HSIZE slots hshift is 8. */
  function FirstSlot(c: byte, ent: nat): nat { Xor(Shl(c, 8), ent) }

  lemma FirstSlotBound(p: Params, c: byte, ent: nat)
    requires p.Ok() && ent < p.Max()
    ensures FirstSlot(c, ent) < 65536 < HSIZE
    ensures p.Max() <= 65536
  {
    MaxBounds(p);
    assert Pow2(8) == 256 && Pow2(16) == 65536;
    ShlBound(c, 8, 8);
    XorBound(Shl(c, 8), ent, 16);
  }
}
