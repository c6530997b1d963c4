/**
 Files as diff reads them: bytes, lines, hash values of lines, and the check that weeds out
 matches that are only due to hashing.
 */
module DiffText {
  import opened DiffSort
  import opened DiffMatch

  type Byte = x: int | 0 <= x < 256

  const NL: Byte := 10
  const EOF: int := -1

  // ---- lines ----

  /** Where the line that starts at p ends, its newline included. */
  function LineEnd(f: seq<Byte>, p: nat): (e: nat)
    requires p <= |f|
    ensures p <= e <= |f| && (p < |f| ==> p < e && (f[e - 1] == NL || e == |f|))
    ensures forall k: nat :: p <= k < e - 1 ==> f[k] != NL
    decreases |f| - p
  {
    if p == |f| then p else if f[p] == NL then p + 1 else LineEnd(f, p + 1)
  }

  function LinesFrom(f: seq<Byte>, p: nat): seq<seq<Byte>>
    requires p <= |f|
    decreases |f| - p
  {
    if p == |f| then [] else [f[p..LineEnd(f, p)]] + LinesFrom(f, LineEnd(f, p))
  }

  function Lines(f: seq<Byte>): seq<seq<Byte>> { LinesFrom(f, 0) }

  function Flat(ls: seq<seq<Byte>>): seq<Byte> {
    if ls == [] then [] else ls[0] + Flat(ls[1..])
  }

  lemma FlatNone()
    ensures Flat([]) == []
  {
  }

  /** The lines put together are the file. */
  lemma {:induction false} FlatLines(f: seq<Byte>, p: nat)
    requires p <= |f|
    ensures Flat(LinesFrom(f, p)) == f[p..]
    decreases |f| - p
  {
    hide Flat, LineEnd;
    if p == |f| {
      FlatNone();
    } else {
      var e := LineEnd(f, p);
      FlatLines(f, e);
      FlatCons(f[p..e], LinesFrom(f, e));
      TwoParts(f, p, e);
    }
  }

  lemma FlatCons(l: seq<Byte>, ls: seq<seq<Byte>>)
    ensures Flat([l] + ls) == l + Flat(ls)
  {
    assert ([l] + ls)[1..] == ls;
  }

  lemma TwoParts(f: seq<Byte>, p: nat, e: nat)
    requires p <= e <= |f|
    ensures f[p..e] + f[e..] == f[p..]
  {
  }

  lemma {:induction false} EndUnique(f: seq<Byte>, p: nat, e: nat)
    requires p < e <= |f| && (f[e - 1] == NL || e == |f|) && forall k: nat :: p <= k < e - 1 ==> f[k] != NL
    ensures LineEnd(f, p) == e
    decreases e - p
  {
  }

  // ---- hash values ----

  /** A value in 32 bits with sign. */
  function Wrap(x: int): int { (x + 0x8000_0000) % 0x1_0000_0000 - 0x8000_0000 }

  function Fold(sum: int, t: seq<Byte>): int {
    if t == [] then sum else Wrap(Fold(sum, t[..|t| - 1]) * 127 + t[|t| - 1])
  }

  function NonZero(x: int): (r: int)
    ensures r != 0
  {
    if x == 0 then 1 else x
  }

  /** The hash value of a line, which leaves out its newline. */
  function LineHash(line: seq<Byte>): (r: int)
    ensures r != 0
  {
    NonZero(Fold(1, if line != [] && line[|line| - 1] == NL then line[..|line| - 1] else line))
  }

  function LineHashes(ls: seq<seq<Byte>>): (h: seq<int>)
    ensures |h| == |ls| && forall k: nat :: k < |h| ==> h[k] == LineHash(ls[k])
  {
    seq(|ls|, k requires 0 <= k < |ls| => LineHash(ls[k]))
  }

  // ---- a file being read ----

  class Reader {
    const data: seq<Byte>
    var pos: nat

    constructor (f: seq<Byte>)
      ensures data == f && pos == 0
    {
      data := f;
      pos := 0;
    }

    method GetC() returns (c: int)
      requires pos <= |data|
      modifies this
      ensures pos <= |data|
      ensures if old(pos) < |data| then c == data[old(pos)] && pos == old(pos) + 1 else c == EOF && pos == old(pos)
    {
      if pos < |data| {
        c := data[pos];
        pos := pos + 1;
      } else {
        c := EOF;
      }
    }

    /** skipline. */
    method SkipLine()
      requires pos <= |data|
      modifies this
      ensures pos == LineEnd(data, old(pos))
    {
      var c := GetC();
      while c != NL && c != EOF
        invariant old(pos) <= pos <= |data|
        invariant LineEnd(data, old(pos)) == if c == NL || c == EOF then pos else LineEnd(data, pos)
        decreases |data| - pos, c != EOF
      {
        c := GetC();
      }
    }

    /** readhash without options: 0 at the end of the file, else the hash value of a line. */
    method ReadHash() returns (h: int)
      requires pos <= |data|
      modifies this
      ensures pos == LineEnd(data, old(pos))
      ensures h == if old(pos) == |data| then 0 else LineHash(data[old(pos)..pos])
    {
      hide Wrap, Fold, LineEnd, LineHash;
      ghost var p := pos;
      FoldNone();
      AtEnd(data, p);
      assert data[p..p] == [];
      var i, sum := 0, 1;
      var t := GetC();
      while t != NL
        invariant p <= pos <= |data| && i == (if t == EOF then pos - p else pos - p - 1) && 0 <= i
        invariant t == EOF ==> pos == |data|
        invariant t != EOF ==> p < pos && data[pos - 1] == t
        invariant sum == Fold(1, data[p..p + i]) && forall k: nat :: p <= k < p + i ==> data[k] != NL
        decreases |data| - pos, t != EOF
      {
        if t == EOF {
          if i == 0 { return 0; }
          break;
        }
        FoldStep(data, p, p + i);
        sum := Wrap(sum * 127 + t);
        i := i + 1;
        t := GetC();
      }
      EndUnique(data, p, pos);
      HashOf(data, p, pos, i);
      h := if sum == 0 then 1 else sum;
    }
  }

  lemma FoldNone()
    ensures Fold(1, []) == 1
  {
  }

  lemma FoldStep(f: seq<Byte>, p: nat, q: nat)
    requires p <= q < |f|
    ensures Fold(1, f[p..q + 1]) == Wrap(Fold(1, f[p..q]) * 127 + f[q])
  {
    assert f[p..q + 1][..q - p] == f[p..q];
  }

  lemma AtEnd(f: seq<Byte>, p: nat)
    requires p <= |f|
    ensures LineEnd(f, p) == p <==> p == |f|
  {
  }

  /** The first i bytes of a line are all but its newline. */
  lemma HashOf(f: seq<Byte>, p: nat, e: nat, i: nat)
    requires p < e <= |f| && (if f[e - 1] == NL then i == e - p - 1 else i == e - p)
    ensures LineHash(f[p..e]) == NonZero(Fold(1, f[p..p + i]))
  {
    assert f[p..e][..e - p - 1] == f[p..e - 1];
  }

  /** The loop of prepare that reads the file. */
  method ReadValues(f: seq<Byte>) returns (values: seq<int>)
    ensures values == LineHashes(Lines(f))
  {
    hide LineEnd, LineHash, LinesFrom, LineHashes;
    var r := new Reader(f);
    values := [];
    var h := r.ReadHash();
    ghost var at := 0;
    HashesFirst(LineHashes(Lines(f)));
    while h != 0
      invariant r.data == f && at <= |f| && r.pos == LineEnd(f, at)
      invariant h == (if at == |f| then 0 else LineHash(f[at..r.pos]))
      invariant LineHashes(Lines(f)) == values + LineHashes(LinesFrom(f, at))
      decreases |f| - at
    {
      LinesStep(f, at);
      HashesStep(values, h, f[at..r.pos], LinesFrom(f, r.pos));
      values := values + [h];
      at := r.pos;
      h := r.ReadHash();
    }
    NoLines(f, values);
  }

  lemma HashesFirst(h: seq<int>)
    ensures h == [] + h
  {
  }

  lemma LinesStep(f: seq<Byte>, p: nat)
    requires p < |f|
    ensures LinesFrom(f, p) == [f[p..LineEnd(f, p)]] + LinesFrom(f, LineEnd(f, p))
  {
  }

  lemma NoLines(f: seq<Byte>, values: seq<int>)
    ensures values + LineHashes(LinesFrom(f, |f|)) == values
  {
  }

  /** prepare: the lines of a file with their hash values, counted from 1. */
  method Prepare(f: seq<Byte>) returns (file: array<Line>, len: nat)
    ensures fresh(file) && len == |Lines(f)| && file.Length == len + 2
    ensures Hashes(file[..], len) == LineHashes(Lines(f))
  {
    hide Lines;
    var values := ReadValues(f);
    len := |values|;
    file := new Line[len + 2](_ => Line(0, 0));
    for i := 0 to len
      invariant forall k: nat :: 1 <= k <= i ==> file[k].value == values[k - 1]
    {
      file[i + 1] := Line(0, values[i]);
    }
  }

  lemma HashesStep(values: seq<int>, h: int, line: seq<Byte>, rest: seq<seq<Byte>>)
    requires h == LineHash(line)
    ensures values + LineHashes([line] + rest) == values + [h] + LineHashes(rest)
  {
    assert LineHashes([line] + rest) == [h] + LineHashes(rest);
  }
}
