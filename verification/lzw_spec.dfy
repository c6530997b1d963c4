/**
 The code stream of compress and what decompress makes of it.

 A compressed file is described by its items: codes, each with the string it stands
 for, and table clears.  Both sides derive the same state from a prefix of the items:
 the decoder's dictionary, the code width and the place of the next code in the bytes.
 The encoder's dictionary is the decoder's plus the entry the decoder will make on
 reading the next code.
 */
module LzwSpec {
  import opened LzwBits

  const FIRST: nat := 257
  const CLEAR: nat := 256

  type Str = seq<byte>

  datatype Params = Params(maxbits: nat, block: bool) {
    predicate Ok() { INIT_BITS <= maxbits <= BITS }

    /** maxmaxcode */
    function Max(): nat { Pow2(maxbits) }

    /** maxcode at width w.  At width INIT_BITS it is 511 even when maxbits is 9, so a
        9-bit stream still widens to 10 bits. */
    function MaxCode(w: nat): nat {
      if w == INIT_BITS then 511 else if w == maxbits then Max() else Pow2(w) - 1
    }
  }

  datatype Item = Code(code: nat, str: Str) | Clear

  function CodeOf(it: Item): nat {
    match it case Code(c, _) => c case Clear => CLEAR
  }

  /** State after a prefix of the items.  prev is the string of the last code, [] before
      the first; the next code lies at bit off of the block that starts at byte start. */
  datatype St = St(dict: seq<Str>, prev: Str, w: nat, start: nat, off: nat)

  function Singles(n: nat): (d: seq<Str>)
    requires n <= 256
    ensures |d| == n
    ensures forall i: nat :: i < n ==> d[i] == [i as byte]
  {
    seq(n, i requires 0 <= i < n => [i as byte])
  }

  function InitDict(p: Params): seq<Str> {
    if p.block then Singles(256) + [[]] else Singles(256)
  }

  function Init(p: Params): St { St(InitDict(p), [], INIT_BITS, 0, 0) }

  /** The decoder's new entry on reading a string that begins with c. */
  function Extend(p: Params, d: seq<Str>, prev: Str, c: byte): seq<Str> {
    if prev != [] && |d| < p.Max() then d + [prev + [c]] else d
  }

  function DictAfter(p: Params, st: St, it: Item): seq<Str> {
    match it
    case Clear => Singles(256)
    case Code(_, s) => if s == [] then st.dict else Extend(p, st.dict, st.prev, s[0])
  }

  /** Whether output flushes its block after this item, and the width from then on. */
  predicate Flush(p: Params, st: St, it: Item) {
    it.Clear? || |DictAfter(p, st, it)| > p.MaxCode(st.w)
  }

  function WidthAfter(p: Params, st: St, it: Item): nat {
    if it.Clear? then INIT_BITS
    else if |DictAfter(p, st, it)| > p.MaxCode(st.w) then st.w + 1
    else st.w
  }

  function Step(p: Params, st: St, it: Item): St {
    var next := st.off + st.w;
    var done := next == 8 * st.w || Flush(p, st, it);
    St(DictAfter(p, st, it),
       if it.Clear? then st.prev else it.str,
       WidthAfter(p, st, it),
       if done then st.start + st.w else st.start,
       if done then 0 else next)
  }

  function After(p: Params, items: seq<Item>): St {
    if items == [] then Init(p) else Step(p, After(p, items[..|items| - 1]), items[|items| - 1])
  }

  /** An item the encoder may emit: a code of the dictionary as extended by the string's
      own first byte (so possibly the entry being made), or a clear of a full table. */
  predicate ValidItem(p: Params, st: St, it: Item) {
    match it
    case Clear => p.block && st.prev != [] && |st.dict| == p.Max()
    case Code(c, s) =>
      && s != []
      && !(p.block && c == CLEAR)
      && c < |DictAfter(p, st, it)|
      && DictAfter(p, st, it)[c] == s
  }

  predicate Valid(p: Params, items: seq<Item>) {
    forall i: nat :: i < |items| ==> ValidItem(p, After(p, items[..i]), items[i])
  }

  /** The bytes the items stand for. */
  function Text(items: seq<Item>): Str {
    if items == [] then []
    else Text(items[..|items| - 1]) + StrOf(items[|items| - 1])
  }

  function StrOf(it: Item): Str {
    match it case Code(_, s) => s case Clear => []
  }

  function Ceil8(n: nat): nat { (n + 7) / 8 }

  function Min(a: int, b: int): int { if a < b then a else b }

  /** The code of item i is the field at its place; the last block may be short. */
  predicate CodeAt(bytes: seq<byte>, st: St, code: nat) {
    var n := Min(st.w, |bytes| - st.start);
    && n >= 0
    && st.off + st.w <= 8 * n
    && Field(bytes[st.start..st.start + n], st.off, st.w) == code
  }

  predicate Packed(p: Params, items: seq<Item>, bytes: seq<byte>) {
    && (forall i: nat :: i < |items| ==> CodeAt(bytes, After(p, items[..i]), CodeOf(items[i])))
    && var e := After(p, items);
    |bytes| == e.start + Ceil8(e.off)
  }

  /** bytes is a compressed form of text. */
  predicate IsCompressed(p: Params, text: Str, items: seq<Item>, bytes: seq<byte>) {
    Valid(p, items) && Text(items) == text && Packed(p, items, bytes)
  }

  lemma AfterSnoc(p: Params, items: seq<Item>, i: nat)
    requires i < |items|
    ensures After(p, items[..i + 1]) == Step(p, After(p, items[..i]), items[i])
  {
    assert items[..i + 1][..i] == items[..i];
  }

  // ---- decompress ----

  /** State of decompress between two calls of getcode: the block read last (n bytes at
      start, in a buffer that keeps older bytes behind them), the bit offset in it, the
      width, clear_flg, the dictionary, the previous string and the output. */
  datatype Dec = Dec(start: nat, n: nat, buf: seq<byte>, off: nat, w: nat, clear: bool,
                     dict: seq<Str>, prev: Str, out: Str)

  predicate DecOk(p: Params, bytes: seq<byte>, d: Dec) {
    && |d.buf| == BITS
    && d.start + d.n <= |bytes|
    && d.n <= BITS
    && INIT_BITS <= d.w <= BITS
    && 256 <= |d.dict| <= p.Max()
    && (d.w == BITS ==> p.maxbits == BITS)
  }

  datatype Got = Eof | Got(code: nat, d: Dec)

  /** getcode */
  function GetCode(p: Params, bytes: seq<byte>, d: Dec): (g: Got)
    requires p.Ok() && DecOk(p, bytes, d)
    ensures g.Got? ==> DecOk(p, bytes, g.d)
    ensures g.Got? ==> g.d.dict == d.dict && g.d.prev == d.prev && g.d.out == d.out && !g.d.clear
    ensures g.Got? ==> Left(bytes, g.d) < Left(bytes, d)
  {
    var wide := |d.dict| > p.MaxCode(d.w);
    if d.clear || d.off + d.w > 8 * d.n || wide then
      var w := if d.clear then INIT_BITS else if wide then d.w + 1 else d.w;
      var start := d.start + d.n;
      var n := Min(w, |bytes| - start);
      if n == 0 then Eof else
      WideOk(p, d.w, |d.dict|);
      var buf := bytes[start..start + n] + d.buf[n..];
      Got(GetBits(buf, 0, w), d.(start := start, n := n, buf := buf, off := w, w := w, clear := false))
    else
      Got(GetBits(d.buf, d.off, d.w), d.(off := d.off + d.w, clear := false))
  }

  /** Bits that getcode has not yet passed. */
  function Left(bytes: seq<byte>, d: Dec): nat {
    var rest := 8 * (|bytes| - d.start - d.n);
    (if rest > 0 then 2 * rest else 0) + (if d.off < 8 * d.n then 8 * d.n - d.off else 0)
  }

  lemma WideOk(p: Params, w: nat, free: nat)
    requires p.Ok() && free <= p.Max() && INIT_BITS <= w <= BITS
    requires w == BITS ==> p.maxbits == BITS
    ensures free > p.MaxCode(w) ==> w < BITS && (w + 1 == BITS ==> p.maxbits == BITS)
  {
    assert Pow2(9) == 512 && Pow2(15) == 32768 && Pow2(16) == 65536;
    if w == 15 && p.maxbits < 15 { Pow2Le(p.maxbits, 14); }
  }

  /** The three bytes before the codes: magic number, maxbits and the block flag. */
  function Header(p: Params): seq<byte>
    requires p.Ok()
  {
    [0x1f, 0x9d, p.maxbits + (if p.block then 0x80 else 0)]
  }

  datatype Outcome = Plain(text: Str) | Corrupt

  /** The codes decompress can expand: entries of the table, or the entry it is about to
      make.  On any other code the source walks entries it has not set. */
  predicate Expandable(p: Params, free: nat, code: nat) {
    code < free || (code == free && free < p.Max() && !(p.block && free == 256))
  }

  /** A code that stands for a string. */
  predicate Known(p: Params, dict: seq<Str>, code: int) {
    0 <= code < |dict| && !(p.block && code == CLEAR)
  }

  predicate DictOk(p: Params, dict: seq<Str>) {
    forall i: nat :: i < |dict| && !(p.block && i == CLEAR) ==> dict[i] != []
  }

  /** One turn of decompress's loop after a code has been read. */
  function Expand(p: Params, bytes: seq<byte>, d: Dec, code: nat): (r: Outcome)
    requires p.Ok() && DecOk(p, bytes, d) && DictOk(p, d.dict) && d.prev != []
    requires p.block && code == CLEAR ==> |d.dict| == 256
    decreases Left(bytes, d), 1
  {
    if !Expandable(p, |d.dict|, code) then Corrupt else
    var s := if code < |d.dict| then d.dict[code] else d.prev + [d.prev[0]];
    DecodeFrom(p, bytes, d.(dict := Extend(p, d.dict, d.prev, s[0]), prev := s, out := d.out + s))
  }

  /** getcode in decompress's loop: a CLEAR empties the table and the next code counts. */
  function ReadCode(p: Params, bytes: seq<byte>, d: Dec): (g: Got)
    requires p.Ok() && DecOk(p, bytes, d) && DictOk(p, d.dict)
    ensures g.Got? ==> DecOk(p, bytes, g.d) && DictOk(p, g.d.dict) && g.d.prev == d.prev && g.d.out == d.out
    ensures g.Got? && p.block && g.code == CLEAR ==> |g.d.dict| == 256
    ensures g.Got? ==> Left(bytes, g.d) < Left(bytes, d)
  {
    var g := GetCode(p, bytes, d);
    if g.Got? && g.code == CLEAR && p.block then
      GetCode(p, bytes, g.d.(clear := true, dict := Singles(256)))
    else
      g
  }

  function DecodeFrom(p: Params, bytes: seq<byte>, d: Dec): Outcome
    requires p.Ok() && DecOk(p, bytes, d) && DictOk(p, d.dict) && d.prev != []
    decreases Left(bytes, d), 0
  {
    match ReadCode(p, bytes, d)
    case Eof => Plain(d.out)
    case Got(code, d1) => Expand(p, bytes, d1, code)
  }

  function Dec0(p: Params, buf: seq<byte>): Dec
  {
    Dec(0, 0, buf, 0, INIT_BITS, false, InitDict(p), [], [])
  }

  /** decompress; buf is what its block buffer happens to hold at the start. */
  function Decode(p: Params, bytes: seq<byte>, buf: seq<byte>): Outcome
    requires p.Ok() && |buf| == BITS
  {
    MaxBounds(p);
    match GetCode(p, bytes, Dec0(p, buf))
    case Eof => Plain([])
    case Got(code, d) =>
      if code >= 256 then Corrupt else
      DecodeFrom(p, bytes, d.(prev := [code as byte], out := [code as byte]))
  }

  lemma MaxBounds(p: Params)
    requires p.Ok()
    ensures 512 <= p.Max() <= 65536
  {
    assert Pow2(9) == 512 && Pow2(16) == 65536;
    Pow2Le(9, p.maxbits);
    Pow2Le(p.maxbits, 16);
  }

  // ---- The two sides in step ----

  /** The decoder has just read the code that lies at st. */
  predicate JustRead(bytes: seq<byte>, d: Dec, st: St) {
    && d.start == st.start && d.w == st.w && d.off == st.off + st.w
    && d.n == Min(st.w, |bytes| - st.start)
    && |d.buf| == BITS && d.n >= 0 && d.n <= BITS && d.start + d.n <= |bytes|
    && d.buf[..d.n] == bytes[d.start..d.start + d.n]
    && d.off <= 8 * d.n
  }

  predicate Sane(p: Params, st: St) {
    && 256 <= |st.dict| <= p.Max()
    && INIT_BITS <= st.w <= BITS && (st.w == BITS ==> p.maxbits == BITS)
    && st.off + st.w <= 8 * st.w
    && Slot(st.off, st.w)
  }

  /** One of the eight code positions of a block. */
  predicate Slot(off: nat, w: nat) {
    off == 0 || off == w || off == 2 * w || off == 3 * w
    || off == 4 * w || off == 5 * w || off == 6 * w || off == 7 * w
  }

  lemma ReadsField(bytes: seq<byte>, buf: seq<byte>, start: nat, n: nat, off: nat, w: nat)
    requires |buf| == BITS && n <= BITS && start + n <= |bytes|
    requires buf[..n] == bytes[start..start + n]
    requires INIT_BITS <= w <= BITS && off + w <= 8 * n
    ensures GetBits(buf, off, w) == Field(bytes[start..start + n], off, w)
  {
    GetBitsIsField(buf, off, w);
    var t := bytes[start..start + n];
    forall j: nat | off <= j < off + w ensures BlockBit(buf, j) == BlockBit(t, j) {
      assert buf[j / 8] == buf[..n][j / 8];
    }
    SameField(buf, t, off, w);
  }

  lemma SaneStep(p: Params, st: St, it: Item)
    requires p.Ok() && Sane(p, st)
    ensures Sane(p, Step(p, st, it))
  {
    MaxBounds(p);
    WideOk(p, st.w, |DictAfter(p, st, it)|);
  }

  lemma {:induction false} SaneAfter(p: Params, items: seq<Item>)
    requires p.Ok()
    ensures Sane(p, After(p, items))
  {
    if items == [] {
      MaxBounds(p);
    } else {
      SaneAfter(p, items[..|items| - 1]);
      SaneStep(p, After(p, items[..|items| - 1]), items[|items| - 1]);
    }
  }

  /** The dictionary never outgrows the width by more than the entry being made, so
      every code fits its width. */
  lemma {:induction false} DictFitsWidth(p: Params, items: seq<Item>)
    requires p.Ok()
    ensures |After(p, items).dict| <= p.MaxCode(After(p, items).w)
  {
    if items == [] {
    } else {
      var front := items[..|items| - 1];
      DictFitsWidth(p, front);
      SaneAfter(p, front);
      SaneAfter(p, items);
      NextFits(p, After(p, front), items[|items| - 1]);
    }
  }

  lemma NextFits(p: Params, st: St, it: Item)
    requires p.Ok() && Sane(p, st) && |st.dict| <= p.MaxCode(st.w)
    ensures |Step(p, st, it).dict| <= p.MaxCode(Step(p, st, it).w)
  {
    MaxBounds(p);
    assert Pow2(9) == 512 && Pow2(10) == 1024;
  }

  lemma CodeFits(p: Params, items: seq<Item>, c: byte, code: nat)
    requires p.Ok() && code < |Extend(p, After(p, items).dict, After(p, items).prev, c)|
    ensures code < Pow2(After(p, items).w) && code < p.Max()
    ensures CLEAR < Pow2(After(p, items).w)
    ensures |Extend(p, After(p, items).dict, After(p, items).prev, c)| <= p.Max()
  {
    var st := After(p, items);
    DictFitsWidth(p, items);
    SaneAfter(p, items);
    assert Pow2(9) == 512;
    Pow2Le(9, st.w);
  }

  /** What getcode does when it takes a new block of width w. */
  lemma NewBlock(p: Params, bytes: seq<byte>, d: Dec, s': St, code: nat)
    requires p.Ok() && DecOk(p, bytes, d)
    requires d.clear || d.off + d.w > 8 * d.n || |d.dict| > p.MaxCode(d.w)
    requires s'.w == (if d.clear then INIT_BITS else if |d.dict| > p.MaxCode(d.w) then d.w + 1 else d.w)
    requires INIT_BITS <= s'.w <= BITS && s'.start == d.start + d.n && s'.off == 0
    requires CodeAt(bytes, s', code)
    ensures GetCode(p, bytes, d).Got?
    ensures GetCode(p, bytes, d).code == code
    ensures JustRead(bytes, GetCode(p, bytes, d).d, s')
  {
    hide LzwBits.GetBits, LzwBits.Field, LzwBits.Pow2, Params.Max, Left;
    var n := Min(s'.w, |bytes| - s'.start);
    var buf := bytes[s'.start..s'.start + n] + d.buf[n..];
    assert buf[..n] == bytes[s'.start..s'.start + n];
    ReadsField(bytes, buf, s'.start, n, 0, s'.w);
  }

  lemma SameBlock(p: Params, bytes: seq<byte>, d: Dec, s': St, code: nat)
    requires p.Ok() && DecOk(p, bytes, d)
    requires !d.clear && |d.dict| <= p.MaxCode(d.w)
    requires d.start == s'.start && d.w == s'.w && d.off == s'.off
    requires d.n == Min(d.w, |bytes| - d.start) && d.buf[..d.n] == bytes[d.start..d.start + d.n]
    requires CodeAt(bytes, s', code)
    ensures GetCode(p, bytes, d).Got?
    ensures GetCode(p, bytes, d).code == code
    ensures JustRead(bytes, GetCode(p, bytes, d).d, s')
  {
    hide LzwBits.GetBits, LzwBits.Field, LzwBits.Pow2, Params.Max, Left;
    ReadsField(bytes, d.buf, d.start, d.n, d.off, d.w);
  }

  /** Encoder and decoder agree on width and place for every next code. */
  lemma NextCode(p: Params, bytes: seq<byte>, d: Dec, st: St, it: Item, code: nat)
    requires p.Ok() && Sane(p, st) && DecOk(p, bytes, d) && JustRead(bytes, d, st)
    requires d.dict == DictAfter(p, st, it) && d.clear == it.Clear?
    requires CodeAt(bytes, Step(p, st, it), code)
    ensures GetCode(p, bytes, d).Got?
    ensures GetCode(p, bytes, d).code == code
    ensures JustRead(bytes, GetCode(p, bytes, d).d, Step(p, st, it))
  {
    var s' := Step(p, st, it);
    SaneStep(p, st, it);
    if s'.off == 0 {
      assert d.n == st.w;
      NewBlock(p, bytes, d, s', code);
    } else {
      SameBlock(p, bytes, d, s', code);
    }
  }

  /** The decoder sees the end of the file exactly after the last code. */
  lemma NoMoreCodes(p: Params, bytes: seq<byte>, d: Dec, st: St, it: Item)
    requires p.Ok() && Sane(p, st) && DecOk(p, bytes, d) && JustRead(bytes, d, st)
    requires d.dict == DictAfter(p, st, it) && d.clear == it.Clear?
    requires |bytes| == Step(p, st, it).start + Ceil8(Step(p, st, it).off)
    ensures GetCode(p, bytes, d) == Eof
  {
    var s' := Step(p, st, it);
    SaneStep(p, st, it);
    if s'.off == 0 { assert d.n == st.w; } else { assert 8 * d.n < d.off + 8; }
  }

  /** A code of the encoder's dictionary expands to its string in the decoder's, which
      lacks the newest entry: if the code names that entry, the string repeats its own
      first byte at the end (the KwKwK case). */
  lemma ExpandsItem(p: Params, st: St, it: Item, d: Dec)
    requires p.Ok() && ValidItem(p, st, it) && it.Code?
    requires d.dict == st.dict && d.prev == st.prev != []
    requires p.block && |st.dict| == 256 ==> it.code < 256
    ensures Expandable(p, |d.dict|, it.code)
    ensures it.str == if it.code < |d.dict| then d.dict[it.code] else d.prev + [d.prev[0]]
  {
  }

  lemma TextSnoc(items: seq<Item>, i: nat)
    requires i < |items|
    ensures Text(items[..i + 1]) == Text(items[..i]) + StrOf(items[i])
  {
    assert items[..i + 1][..i] == items[..i];
  }

  /** What validity and packing say of item i, and of the end. */
  lemma ItemFacts(p: Params, items: seq<Item>, bytes: seq<byte>, i: nat)
    requires p.Ok() && Valid(p, items) && Packed(p, items, bytes) && i <= |items|
    ensures Sane(p, After(p, items[..i]))
    ensures i < |items| ==> ValidItem(p, After(p, items[..i]), items[i])
    ensures i < |items| ==> CodeAt(bytes, After(p, items[..i]), CodeOf(items[i]))
    ensures i < |items| ==> After(p, items[..i + 1]) == Step(p, After(p, items[..i]), items[i])
    ensures i < |items| ==> Text(items[..i + 1]) == Text(items[..i]) + StrOf(items[i])
    ensures i == |items| ==> items[..i] == items && |bytes| == After(p, items).start + Ceil8(After(p, items).off)
  {
    hide Step, Sane, ValidItem, CodeAt;
    SaneAfter(p, items[..i]);
    if i < |items| {
      AfterSnoc(p, items, i);
      TextSnoc(items, i);
    } else {
      assert items[..i] == items;
    }
  }

  /** From any point where the two sides agree, the decoder produces the whole text. */
  lemma {:induction false} DecodesRest(p: Params, items: seq<Item>, bytes: seq<byte>, d: Dec, i: nat)
    requires p.Ok() && Valid(p, items) && Packed(p, items, bytes)
    requires i < |items| && items[i].Code?
    requires DecOk(p, bytes, d) && DictOk(p, d.dict) && d.prev != [] && !d.clear
    requires JustRead(bytes, d, After(p, items[..i]))
    requires d.dict == After(p, items[..i + 1]).dict && d.prev == After(p, items[..i + 1]).prev
    requires d.out == Text(items[..i + 1])
    ensures DecodeFrom(p, bytes, d) == Plain(Text(items))
    decreases |items| - i, 1
  {
    hide GetCode, Sane, CodeAt, WidthAfter, Params.MaxCode, Valid, Packed, After, Text, Expand, JustRead;
    ItemFacts(p, items, bytes, i);
    ItemFacts(p, items, bytes, i + 1);
    var st := After(p, items[..i]);
    if i + 1 == |items| {
      NoMoreCodes(p, bytes, d, st, items[i]);
    } else {
      NextCode(p, bytes, d, st, items[i], CodeOf(items[i + 1]));
      var d1 := GetCode(p, bytes, d).d;
      if items[i + 1].Clear? {
        DecodesClear(p, items, bytes, d1, i + 1);
      } else {
        DecodesOne(p, items, bytes, d1, i + 1);
      }
    }
  }

  lemma {:induction false} DecodesClear(p: Params, items: seq<Item>, bytes: seq<byte>, d: Dec, i: nat)
    requires p.Ok() && Valid(p, items) && Packed(p, items, bytes)
    requires i < |items| && items[i].Clear?
    requires DecOk(p, bytes, d) && d.prev != []
    requires JustRead(bytes, d, After(p, items[..i]))
    requires d.prev == After(p, items[..i]).prev && d.out == Text(items[..i])
    ensures var d2 := d.(clear := true, dict := Singles(256));
            match GetCode(p, bytes, d2)
            case Eof => Plain(d.out) == Plain(Text(items))
            case Got(c2, d3) => |d3.dict| == 256 && Expand(p, bytes, d3, c2) == Plain(Text(items))
    decreases |items| - i, 1
  {
    hide GetCode, Sane, CodeAt, WidthAfter, Params.MaxCode, Valid, Packed, After, Text, Expand;
    ItemFacts(p, items, bytes, i);
    ItemFacts(p, items, bytes, i + 1);
    MaxBounds(p);
    var st := After(p, items[..i]);
    var d2 := d.(clear := true, dict := Singles(256));
    assert Text(items[..i]) + [] == Text(items[..i]);
    if i + 1 == |items| {
      NoMoreCodes(p, bytes, d2, st, items[i]);
    } else {
      NextCode(p, bytes, d2, st, items[i], CodeOf(items[i + 1]));
      DecodesOne(p, items, bytes, GetCode(p, bytes, d2).d, i + 1);
    }
  }

  lemma {:induction false} DecodesOne(p: Params, items: seq<Item>, bytes: seq<byte>, d: Dec, i: nat)
    requires p.Ok() && Valid(p, items) && Packed(p, items, bytes)
    requires i < |items| && items[i].Code?
    requires DecOk(p, bytes, d) && DictOk(p, d.dict) && d.prev != [] && !d.clear
    requires JustRead(bytes, d, After(p, items[..i]))
    requires d.dict == After(p, items[..i]).dict && d.prev == After(p, items[..i]).prev
    requires d.out == Text(items[..i])
    ensures p.block && items[i].code == CLEAR ==> |d.dict| == 256
    ensures Expand(p, bytes, d, items[i].code) == Plain(Text(items))
    decreases |items| - i, 2
  {
    hide GetCode, Sane, CodeAt, WidthAfter, Params.MaxCode, Valid, Packed, After, Text, DecodeFrom;
    ItemFacts(p, items, bytes, i);
    ExpandsItem(p, After(p, items[..i]), items[i], d);
    var s := items[i].str;
    DecodesRest(p, items, bytes, d.(dict := Extend(p, d.dict, d.prev, s[0]), prev := s, out := d.out + s), i);
  }

  /** Decompressing any compressed form of a text gives the text back. */
  lemma RoundTrip(p: Params, text: Str, items: seq<Item>, bytes: seq<byte>, buf: seq<byte>)
    requires p.Ok() && |buf| == BITS
    requires IsCompressed(p, text, items, bytes)
    ensures Decode(p, bytes, buf) == Plain(text)
  {
    hide CodeAt, Valid, Packed, DecodeFrom;
    MaxBounds(p);
    var d0 := Dec0(p, buf);
    ItemFacts(p, items, bytes, 0);
    assert items[..0] == [];
    if items != [] {
      NewBlock(p, bytes, d0, After(p, []), CodeOf(items[0]));
      var d := GetCode(p, bytes, d0).d;
      DecodesRest(p, items, bytes, d.(prev := items[0].str, out := items[0].str), 0);
    }
  }
}
