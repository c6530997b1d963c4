/**
 The check of diff, which breaks matches of lines that differ, and diff as a whole.
 */
module DiffCheck {
  import opened DiffLcs
  import opened DiffSort
  import opened DiffVector
  import opened DiffMatch
  import opened DiffHunks
  import opened DiffOutput
  import opened DiffText
  import opened DiffLeast

  /** p is where line i starts, counted from 1. */
  ghost predicate AtLine(f: seq<Byte>, p: nat, i: nat) {
    1 <= i <= |Lines(f)| + 1 && p <= |f| && LinesFrom(f, p) == Lines(f)[i - 1..]
  }

  lemma LineAt(f: seq<Byte>, p: nat, i: nat)
    requires AtLine(f, p, i) && i <= |Lines(f)|
    ensures p < |f| && Lines(f)[i - 1] == f[p..LineEnd(f, p)] && AtLine(f, LineEnd(f, p), i + 1)
  {
    var ls := Lines(f);
    assert ls[i - 1..] == [ls[i - 1]] + ls[i..];
    assert p < |f|;
    LinesStep(f, p);
    assert LinesFrom(f, p)[0] == f[p..LineEnd(f, p)] && LinesFrom(f, p)[1..] == LinesFrom(f, LineEnd(f, p));
  }

  lemma LastLine(f: seq<Byte>, i: nat)
    requires AtLine(f, |f|, i)
    ensures i == |Lines(f)| + 1
  {
  }

  /** Compare a line of each file byte by byte. Both files are then at their next lines, except
      that the second may be left inside its line when the first has come to its end. */
  method Compare(r0: Reader, r1: Reader) returns (same: bool)
    requires r0 != r1 && r0.pos < |r0.data| && r1.pos < |r1.data|
    modifies r0, r1
    ensures r0.pos == LineEnd(r0.data, old(r0.pos)) && r1.pos <= |r1.data|
    ensures r1.pos == LineEnd(r1.data, old(r1.pos)) || r0.pos == |r0.data|
    ensures same <==> r0.data[old(r0.pos)..r0.pos] == r1.data[old(r1.pos)..LineEnd(r1.data, old(r1.pos))]
  {
    hide LineEnd;
    ghost var f0, f1, p0, p1 := r0.data, r1.data, r0.pos, r1.pos;
    ghost var e0, e1 := LineEnd(f0, p0), LineEnd(f1, p1);
    while true
      invariant r0.pos <= |f0| && r1.pos <= |f1| && LineEnd(f0, r0.pos) == e0 && LineEnd(f1, r1.pos) == e1
      invariant f0[p0..e0] == f1[p1..e1] <==> f0[r0.pos..e0] == f1[r1.pos..e1]
      decreases |f0| - r0.pos
    {
      SameFirst(f0, r0.pos, e0, f1, r1.pos, e1);
      EndStep(f0, r0.pos);
      EndStep(f1, r1.pos);
      var c := r0.GetC();
      var d := r1.GetC();
      if c != d {
        if c != NL && c != EOF { r0.SkipLine(); }
        if d != NL && c != EOF { r1.SkipLine(); }
        return false;
      }
      if c == NL || c == EOF { return true; }
    }
  }

  lemma EndStep(f: seq<Byte>, p: nat)
    requires p <= |f|
    ensures LineEnd(f, p) == if p == |f| then p else if f[p] == NL then p + 1 else LineEnd(f, p + 1)
  {
  }

  lemma SameFirst(f: seq<Byte>, p: nat, e: nat, g: seq<Byte>, q: nat, d: nat)
    requires p <= e <= |f| && q <= d <= |g|
    ensures p < e && q < d ==> (f[p..e] == g[q..d] <==> f[p] == g[q] && f[p + 1..e] == g[q + 1..d])
    ensures p == e || q == d ==> (f[p..e] == g[q..d] <==> p == e && q == d)
  {
    if p < e && q < d { assert f[p..e] == [f[p]] + f[p + 1..e] && g[q..d] == [g[q]] + g[q + 1..d]; }
  }

  /** w is v without the matches of lines that differ. */
  ghost predicate Checked<T(!new)>(l0: seq<T>, l1: seq<T>, v: seq<int>, w: seq<int>, n: nat) {
    && |w| == |v| > n && n <= |l0|
    && forall i: nat :: 1 <= i <= n ==>
         && 0 <= v[i] <= |l1|
         && w[i] == if v[i] != 0 && l0[i - 1] == l1[v[i] - 1] then v[i] else 0
  }

  /** A checked vector of matches of equal hash values matches equal lines. */
  lemma CheckedVector(l0: seq<seq<Byte>>, l1: seq<seq<Byte>>, v: seq<int>, w: seq<int>)
    requires Vector(LineHashes(l0), LineHashes(l1), v) && Checked(l0, l1, v, w, |l0|)
    ensures Vector(l0, l1, w)
  {
    hide LineHashes;
  }

  /** The body of the loop of check for a matched line: r0 is at line i and r1 at line j. */
  method CheckLine(r0: Reader, r1: Reader, i: nat, j0: nat, y: nat) returns (same: bool)
    requires r0 != r1 && AtLine(r0.data, r0.pos, i) && AtLine(r1.data, r1.pos, j0)
    requires i <= |Lines(r0.data)| && j0 <= y <= |Lines(r1.data)|
    modifies r0, r1
    ensures AtLine(r0.data, r0.pos, i + 1) && (i < |Lines(r0.data)| ==> AtLine(r1.data, r1.pos, y + 1))
    ensures same <==> Lines(r0.data)[i - 1] == Lines(r1.data)[y - 1]
  {
    hide Lines, AtLine, LineEnd;
    var j := j0;
    AtBound(r1.data, r1.pos, j);
    while j < y
      invariant r0.pos == old(r0.pos) && j0 <= j <= y && AtLine(r1.data, r1.pos, j)
    {
      LineAt(r1.data, r1.pos, j);
      r1.SkipLine();
      j := j + 1;
    }
    LineAt(r0.data, r0.pos, i);
    LineAt(r1.data, r1.pos, y);
    same := Compare(r0, r1);
    if r0.pos == |r0.data| { LastLine(r0.data, i + 1); }
  }

  lemma AtBound(f: seq<Byte>, p: nat, i: nat)
    requires AtLine(f, p, i)
    ensures p <= |f|
  {
  }

  /** Before line i: earlier lines are checked, later matches are as they were and from line
      j on. */
  ghost predicate Checking(l0: seq<seq<Byte>>, l1: seq<seq<Byte>>, v: seq<int>, w: seq<int>, i: nat, j: int) {
    && 1 <= i <= |l0| + 1 < |v| == |w| && Checked(l0, l1, v, w, i - 1) && w[i..] == v[i..]
    && forall u: nat :: i <= u <= |l0| && v[u] != 0 ==> j <= v[u]
  }

  lemma CheckingFirst(l0: seq<seq<Byte>>, l1: seq<seq<Byte>>, v: seq<int>)
    requires Vector(LineHashes(l0), LineHashes(l1), v) && |v| == |l0| + 2
    ensures Checking(l0, l1, v, v, 1, 1)
  {
    hide LineHashes;
  }

  lemma CheckingNext(l0: seq<seq<Byte>>, l1: seq<seq<Byte>>, v: seq<int>, w: seq<int>, i: nat, j: int, y: int)
    requires Vector(LineHashes(l0), LineHashes(l1), v) && Checking(l0, l1, v, w, i, j) && i <= |l0|
    ensures w[i] == v[i] && 0 <= v[i] <= |l1| && (v[i] != 0 ==> j <= v[i])
    ensures y == (if v[i] != 0 && l0[i - 1] == l1[v[i] - 1] then v[i] else 0) ==>
              Checking(l0, l1, v, w[i := y], i + 1, if v[i] == 0 then j else v[i] + 1)
  {
    hide Vector, LineHashes;
    MatchAt(LineHashes(l0), LineHashes(l1), v, i);
    assert w[i..][0] == v[i..][0];
    if y == (if v[i] != 0 && l0[i - 1] == l1[v[i] - 1] then v[i] else 0) {
      assert w[i := y][i + 1..] == w[i..][1..] && v[i + 1..] == v[i..][1..];
      CheckedNext(l0, l1, v, w, w[i := y], i);
    }
  }

  /** The body of the loop of check. */
  method CheckOne(r0: Reader, r1: Reader, vec: array<int>, i: nat, j: nat, ghost v: seq<int>) returns (j': nat)
    requires r0 != r1 && AtLine(r0.data, r0.pos, i) && AtLine(r1.data, r1.pos, j) && i <= |Lines(r0.data)|
    requires Vector(LineHashes(Lines(r0.data)), LineHashes(Lines(r1.data)), v)
    requires Checking(Lines(r0.data), Lines(r1.data), v, vec[..], i, j)
    modifies r0, r1, vec
    ensures AtLine(r0.data, r0.pos, i + 1) && (i < |Lines(r0.data)| ==> AtLine(r1.data, r1.pos, j'))
    ensures Checking(Lines(r0.data), Lines(r1.data), v, vec[..], i + 1, j')
  {
    hide Lines, AtLine, LineEnd, Vector, LineHashes, Checked;
    ghost var l0, l1, w := Lines(r0.data), Lines(r1.data), vec[..];
    CheckingNext(l0, l1, v, w, i, j, 0);
    LineAt(r0.data, r0.pos, i);
    j' := j;
    if vec[i] == 0 {
      r0.SkipLine();
      assert vec[..] == w[i := 0];
    } else {
      CheckingNext(l0, l1, v, w, i, j, v[i]);
      var same := CheckLine(r0, r1, i, j, vec[i]);
      j' := vec[i] + 1;
      if !same { vec[i] := 0; }
      assert vec[..] == w[i := if same then v[i] else 0];
    }
  }

  /** check, as far as the matches: those of lines that differ are broken. */
  method Check(r0: Reader, r1: Reader, vec: array<int>)
    requires r0 != r1 && r0.pos == r1.pos == 0 && vec.Length == |Lines(r0.data)| + 2
    requires Vector(LineHashes(Lines(r0.data)), LineHashes(Lines(r1.data)), vec[..])
    modifies r0, r1, vec
    ensures Checked(Lines(r0.data), Lines(r1.data), old(vec[..]), vec[..], |Lines(r0.data)|)
  {
    hide Lines, AtLine, Vector, LineHashes, Checked;
    ghost var l0, l1, v := Lines(r0.data), Lines(r1.data), vec[..];
    StartLine(r0.data);
    StartLine(r1.data);
    CheckingFirst(l0, l1, v);
    var j := 1;
    for i := 1 to vec.Length - 1
      invariant AtLine(r0.data, r0.pos, i) && (i <= |l0| ==> AtLine(r1.data, r1.pos, j))
      invariant Checking(l0, l1, v, vec[..], i, j)
    {
      j := CheckOne(r0, r1, vec, i, j, v);
    }
  }

  lemma StartLine(f: seq<Byte>)
    ensures AtLine(f, 0, 1)
  {
  }

  lemma CheckedNext<T(!new)>(l0: seq<T>, l1: seq<T>, v: seq<int>, w: seq<int>, w': seq<int>, i: nat)
    requires 1 <= i <= |l0| && Checked(l0, l1, v, w, i - 1) && i < |v|
    requires |w'| == |w| && forall u: nat :: 1 <= u < i ==> w'[u] == w[u]
    requires 0 <= v[i] <= |l1| && w'[i] == if v[i] != 0 && l0[i - 1] == l1[v[i] - 1] then v[i] else 0
    ensures Checked(l0, l1, v, w', i)
  {
  }

  lemma {:induction false} CountSame(v: seq<int>, w: seq<int>, n: nat)
    requires n < |v| && n < |w| && forall i: nat :: 1 <= i <= n ==> v[i] == w[i]
    ensures Count(v, 0, n) == Count(w, 0, n)
  {
    if n > 0 { CountSame(v, w, n - 1); }
  }

  /** If hash values tell the lines apart the check breaks no match. */
  lemma NoneBroken(l0: seq<seq<Byte>>, l1: seq<seq<Byte>>, v: seq<int>, w: seq<int>)
    requires Vector(LineHashes(l0), LineHashes(l1), v) && Checked(l0, l1, v, w, |l0|) && HashesTell(l0, l1)
    ensures Count(w, 0, |l0|) == Count(v, 0, |l0|)
  {
    var h0, h1 := LineHashes(l0), LineHashes(l1);
    forall i: nat | 1 <= i <= |l0| ensures v[i] == w[i] {
      if v[i] != 0 { assert h0[i - 1] == h1[v[i] - 1]; }
    }
    hide Vector, Checked, HashesTell;
    CountSame(v, w, |l0|);
  }

  /** What the hunks do to the number of lines, and when they are as short as can be. */
  ghost predicate Short(l0: seq<seq<Byte>>, l1: seq<seq<Byte>>, hunks: seq<Hunk>, full: bool) {
    && Added(hunks) - Deleted(hunks) == |l1| - |l0|
    && (full && HashesTell(l0, l1) ==> IsLcs(l0, l1, |l0| - Deleted(hunks)))
  }

  lemma ShortHunks(l0: seq<seq<Byte>>, l1: seq<seq<Byte>>, v: seq<int>, w: seq<int>, full: bool)
    requires Vector(LineHashes(l0), LineHashes(l1), v) && Checked(l0, l1, v, w, |l0|) && Vector(l0, l1, w)
    requires full ==> IsLcs(LineHashes(l0), LineHashes(l1), Count(v, 0, |l0|))
    ensures |l0| < |w|
    ensures var s := Script(w, 1, 0, |l0|, |l1|); Short(l0, l1, s, full) && Short(l0, l1, Reverse(s), full)
  {
    hide Vector, Checked, IsLcs, LineHashes, Script, Deleted, Added, Reverse, HashesTell, Short, Count;
    WholeSums(l0, l1, w);
    var s, c := Script(w, 1, 0, |l0|, |l1|), Count(w, 0, |l0|);
    SumReverse(s);
    if full && HashesTell(l0, l1) {
      NoneBroken(l0, l1, v, w);
      SameLcs(l0, l1, c);
    }
    ShortIf(l0, l1, s, full, c);
    ShortIf(l0, l1, Reverse(s), full, c);
  }

  lemma ShortIf(l0: seq<seq<Byte>>, l1: seq<seq<Byte>>, hunks: seq<Hunk>, full: bool, c: nat)
    requires Deleted(hunks) == |l0| - c && Added(hunks) == |l1| - c && (full && HashesTell(l0, l1) ==> IsLcs(l0, l1, c))
    ensures Short(l0, l1, hunks, full)
  {
    hide IsLcs, HashesTell, Deleted, Added;
    assert |l0| - Deleted(hunks) == c;
  }

  /** diffreg, as far as the hunks: carried out on the first file they give the second; for an
      editor they come last first and are carried out one after the other. If the search was
      not cut short, the matches before the check were as many as can be; and if hash values tell
      the lines apart, the lines that the hunks leave are a longest common subsequence. */
  method Diff(f0: seq<Byte>, f1: seq<Byte>, minimal: bool, root: nat, edit: bool)
    returns (hunks: seq<Hunk>, ghost v: seq<int>)
    requires |Lines(f1)| <= INT_MAX
    ensures var l0, l1 := Lines(f0), Lines(f1);
            && Flat(if edit then Edited(l0, l1, hunks) else Patched(l0, l1, hunks, 1)) == f1
            && exists w :: Checked(l0, l1, v, w, |l0|) && Vector(l0, l1, w)
                 && hunks == (if edit then Reverse(Script(w, 1, 0, |l0|, |l1|)) else Script(w, 1, 0, |l0|, |l1|))
    ensures |Lines(f0)| < |v| && (minimal || |Lines(f1)| <= 256 || |Lines(f1)| <= root ==>
              IsLcs(LineHashes(Lines(f0)), LineHashes(Lines(f1)), Count(v, 0, |Lines(f0)|)))
    ensures Short(Lines(f0), Lines(f1), hunks, minimal || |Lines(f1)| <= 256 || |Lines(f1)| <= root)
  {
    hide Lines, IsLcs, Vector, LineHashes, Script, Edited, Patched, Reverse, Checked, Short;
    var file0, len0 := Prepare(f0);
    var file1, len1 := Prepare(f1);
    NoZero(file1[..], len1, Lines(f1));
    var vec := Match(file0, len0, file1, len1, minimal, root);
    v := vec[..];
    var r0 := new Reader(f0);
    var r1 := new Reader(f1);
    Check(r0, r1, vec);
    ghost var w := vec[..];
    CheckedVector(Lines(f0), Lines(f1), v, w);
    VectorRises(Lines(f0), Lines(f1), w);
    var printer := new Printer();
    printer.Output(vec, len0, len1, edit);
    hunks := printer.out;
    ScriptTurns(Lines(f0), Lines(f1), w);
    BackwardTurns(Lines(f0), Lines(f1), w);
    ShortHunks(Lines(f0), Lines(f1), v, w, minimal || len1 <= 256 || len1 <= root);
    WholeFile(f1);
  }

  lemma NoZero(a: seq<Line>, n: nat, ls: seq<seq<Byte>>)
    requires n < |a| && n == |ls| && Hashes(a, n) == LineHashes(ls)
    ensures forall i: nat :: 1 <= i <= n ==> a[i].value != 0
  {
    forall i: nat | 1 <= i <= n ensures a[i].value != 0 { assert Hashes(a, n)[i - 1] == LineHashes(ls)[i - 1]; }
  }

  lemma WholeFile(f: seq<Byte>)
    ensures Flat(Lines(f)) == f
  {
    FlatLines(f, 0);
    assert f[0..] == f;
  }
}
