/**
 The two loops of diff that find the hunks: one from the front of the files, one from the back
 for editor scripts. Both overwrite entries of the match vector as they go.
 */
module DiffOutput {
  import opened DiffHunks

  lemma ScriptSkip(v: seq<int>, i: nat, j: nat, m: nat, n: nat)
    requires 1 <= i <= m < |v| && v[i] == j + 1
    ensures Script(v, i, j, m, n) == Script(v, i + 1, v[i], m, n)
  {
    ScriptMatched(v, i, j, m, n);
  }

  /** Where line e of the first file is matched, or where the second file ends. */
  ghost function MatchOr(v: seq<int>, e: nat, m: nat, n: nat): int
    requires e <= m + 1 && m < |v|
  {
    if e == m + 1 then n + 1 else v[e]
  }

  lemma ScriptGap(v: seq<int>, i: nat, j: nat, m: nat, n: nat, e: nat)
    requires 1 <= i <= e <= m + 1 && m < |v| && (forall u: nat :: i <= u < e ==> v[u] == 0) && (e <= m ==> v[e] != 0)
    ensures Script(v, i, j, m, n) ==
            One(i, e - 1, j + 1, MatchOr(v, e, m, n) - 1) + Script(v, e, MatchOr(v, e, m, n) - 1, m, n)
  {
    NextUnique(v, i, m, e);
    if e <= m { ScriptMatched(v, e, v[e] - 1, m, n); }
  }

  lemma BackSkip(v: seq<int>, i: nat)
    requires 1 <= i < |v| && v[i] != 0
    ensures Script(v, 1, 0, i, v[i]) == Script(v, 1, 0, i - 1, v[i] - 1)
  {
    ScriptLast(v, 1, 0, i, v[i], i);
  }

  lemma BackGap(v: seq<int>, i: nat, top: int, e: nat)
    requires e <= i < |v| && v[0] == 0 && (forall u: nat :: e < u <= i ==> v[u] == 0) && (e > 0 ==> v[e] != 0)
    ensures Script(v, 1, 0, i, top) == Script(v, 1, 0, e, v[e]) + One(e + 1, i, v[e] + 1, top)
  {
    if e == 0 {
      NextUnique(v, 1, i, i + 1);
    } else {
      ScriptLast(v, 1, 0, i, top, e);
      BackSkip(v, e);
    }
  }

  lemma ReverseGap(hs: seq<Hunk>, a: int, b: int, c: int, d: int, pre: seq<Hunk>)
    ensures pre + Reverse(hs + One(a, b, c, d)) == pre + One(a, b, c, d) + Reverse(hs)
  {
    ReverseSum(hs, One(a, b, c, d));
    ReverseOne(a, b, c, d);
  }

  /** The inner loops: over matches that follow one another, and over unmatched lines. */
  method SkipMatched(vec: array<int>, m: nat, n: nat, start: nat, ghost v: seq<int>) returns (i0: nat)
    requires vec.Length == m + 2 == |v| && 1 <= start <= m && 0 <= vec[start - 1]
    requires forall u: nat :: start <= u <= m + 1 ==> vec[u] == v[u]
    ensures start <= i0 <= m + 1 && 0 <= vec[i0 - 1] && (i0 <= m ==> vec[i0] != vec[i0 - 1] + 1)
    ensures Script(v, i0, vec[i0 - 1], m, n) == Script(v, start, vec[start - 1], m, n)
  {
    hide Script;
    i0 := start;
    while i0 <= m && vec[i0] == vec[i0 - 1] + 1
      invariant start <= i0 <= m + 1 && 0 <= vec[i0 - 1]
      invariant Script(v, i0, vec[i0 - 1], m, n) == Script(v, start, vec[start - 1], m, n)
    {
      ScriptSkip(v, i0, vec[i0 - 1], m, n);
      i0 := i0 + 1;
    }
  }

  method GapEnd(vec: array<int>, m: nat, i0: nat) returns (i1: nat)
    requires vec.Length == m + 2 && 1 <= i0 <= m + 1
    ensures i0 - 1 <= i1 <= m && (forall u: nat :: i0 <= u <= i1 ==> vec[u] == 0) && (i1 < m ==> vec[i1 + 1] != 0)
  {
    i1 := i0 - 1;
    while i1 < m && vec[i1 + 1] == 0
      invariant i0 - 1 <= i1 <= m && forall u: nat :: i0 <= u <= i1 ==> vec[u] == 0
    {
      i1 := i1 + 1;
    }
  }

  method SkipMatchedBack(vec: array<int>, m: nat, start: nat, ghost v: seq<int>) returns (i0: nat)
    requires vec.Length == m + 2 == |v| && 1 <= start <= m && forall u: nat :: u <= start ==> vec[u] == v[u]
    ensures i0 <= start && (i0 >= 1 ==> vec[i0] != vec[i0 + 1] - 1 || vec[i0] == 0)
    ensures Script(v, 1, 0, i0, vec[i0 + 1] - 1) == Script(v, 1, 0, start, vec[start + 1] - 1)
  {
    hide Script;
    i0 := start;
    while i0 >= 1 && vec[i0] == vec[i0 + 1] - 1 && vec[i0] != 0
      invariant i0 <= start && Script(v, 1, 0, i0, vec[i0 + 1] - 1) == Script(v, 1, 0, start, vec[start + 1] - 1)
    {
      BackSkip(v, i0);
      i0 := i0 - 1;
    }
  }

  method GapStart(vec: array<int>, m: nat, i0: nat) returns (i1: nat)
    requires vec.Length == m + 2 && i0 <= m
    ensures 1 <= i1 <= i0 + 1 && (forall u: nat :: i1 <= u <= i0 ==> vec[u] == 0) && (i1 > 1 ==> vec[i1 - 1] != 0)
  {
    i1 := i0 + 1;
    while i1 > 1 && vec[i1 - 1] == 0
      invariant 1 <= i1 <= i0 + 1 && forall u: nat :: i1 <= u <= i0 ==> vec[u] == 0
    {
      i1 := i1 - 1;
    }
  }

  class Printer {
    var out: seq<Hunk>

    constructor ()
      ensures out == []
    {
      out := [];
    }

    /** change, up to the point where the hunk is known to be one. */
    method Change(a: int, b: int, c: int, d: int)
      modifies this
      ensures out == old(out) + One(a, b, c, d)
    {
      if a > b && c > d { return; }
      out := out + [Hunk(a, b, c, d)];
    }

    /** The loop from the front. */
    method Forward(vec: array<int>, m: nat, n: nat, ghost v: seq<int>)
      requires vec.Length == m + 2 && vec[..] == v && v[0] == 0 && v[m + 1] == n + 1 && Rises(v, 1, m, n) && 1 <= m
      modifies this, vec
      ensures out == old(out) + Script(v, 1, 0, m, n)
    {
      hide Script, One;
      var i0 := 1;
      while i0 <= m
        invariant 1 <= i0 <= m + 1 && (forall u: nat :: i0 <= u <= m + 1 ==> vec[u] == v[u]) && 0 <= vec[i0 - 1]
        invariant out + Script(v, i0, vec[i0 - 1], m, n) == old(out) + Script(v, 1, 0, m, n)
        invariant i0 == m + 1 ==> vec[m] == n
        decreases m + 1 - i0, if i0 <= m && vec[i0] == vec[i0 - 1] + 1 then 0 else 1
      {
        i0 := SkipMatched(vec, m, n, i0, v);
        var j0 := vec[i0 - 1] + 1;
        var i1 := GapEnd(vec, m, i0);
        var j1 := vec[i1 + 1] - 1;
        ScriptGap(v, i0, j0 - 1, m, n, i1 + 1);
        Assoc(out, One(i0, i1, j0, j1), Script(v, i1 + 1, j1, m, n));
        vec[i1] := j1;
        Change(i0, i1, j0, j1);
        i0 := i1 + 1;
      }
      NothingLeft(v, m, n);
    }

    /** The loop from the back. */
    method Backward(vec: array<int>, m: nat, n: nat, ghost v: seq<int>)
      requires vec.Length == m + 2 && vec[..] == v && v[0] == 0 && v[m + 1] == n + 1 && Rises(v, 1, m, n) && 1 <= m
      modifies this, vec
      ensures out == old(out) + Reverse(Script(v, 1, 0, m, n))
    {
      hide Script, One, Reverse;
      var i0 := m;
      while i0 >= 1
        invariant 0 <= i0 <= m && (forall u: nat :: u <= i0 ==> vec[u] == v[u])
        invariant out + Reverse(Script(v, 1, 0, i0, vec[i0 + 1] - 1)) == old(out) + Reverse(Script(v, 1, 0, m, n))
        invariant i0 == 0 ==> vec[1] == 1
        decreases i0, if vec[i0] == vec[i0 + 1] - 1 && vec[i0] != 0 then 0 else 1
      {
        i0 := SkipMatchedBack(vec, m, i0, v);
        var j0 := vec[i0 + 1] - 1;
        var i1 := GapStart(vec, m, i0);
        var j1 := vec[i1 - 1] + 1;
        BackGap(v, i0, j0, i1 - 1);
        ReverseGap(Script(v, 1, 0, i1 - 1, j1 - 1), i1, i0, j1, j0, out);
        vec[i1] := j1;
        Change(i1, i0, j1, j0);
        i0 := i1 - 1;
      }
      NothingFirst(v);
    }

    /** output, as far as the hunks: from the front, or from the back for an editor. */
    method Output(vec: array<int>, m: nat, n: nat, edit: bool)
      requires vec.Length == m + 2 && Rises(vec[..], 1, m, n) && out == []
      modifies this, vec
      ensures var s := Script(old(vec[..]), 1, 0, m, n); out == if edit then Reverse(s) else s
    {
      hide Script;
      vec[0] := 0;
      vec[m + 1] := n + 1;
      ghost var v := vec[..];
      SameScript(old(vec[..]), v, 1, 0, m, n);
      if m == 0 {
        NoLines(v, n);
        Change(1, 0, 1, n);
      } else if !edit {
        Forward(vec, m, n, v);
      } else {
        Backward(vec, m, n, v);
      }
    }
  }

  lemma NothingLeft(v: seq<int>, m: nat, n: nat)
    requires m < |v|
    ensures Script(v, m + 1, n, m, n) == []
  {
  }

  lemma NothingFirst(v: seq<int>)
    requires 0 < |v|
    ensures Reverse(Script(v, 1, 0, 0, 0)) == []
  {
  }

  lemma NoLines(v: seq<int>, n: nat)
    requires 0 < |v|
    ensures Script(v, 1, 0, 0, n) == One(1, 0, 1, n) && Reverse(One(1, 0, 1, n)) == One(1, 0, 1, n)
  {
  }

  lemma {:induction false} SameScript(v: seq<int>, w: seq<int>, i: nat, j: int, m: nat, n: int)
    requires 1 <= i <= m + 1 && m < |v| && |w| == |v| && forall u: nat :: i <= u <= m ==> v[u] == w[u]
    ensures Script(v, i, j, m, n) == Script(w, i, j, m, n)
    decreases m + 1 - i
  {
    hide NextMatch, One;
    var e := NextMatch(v, i, m);
    NextUnique(w, i, m, e);
    if e <= m { SameScript(v, w, e + 1, v[e], m, n); }
  }
}
