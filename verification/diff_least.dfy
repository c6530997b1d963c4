/**
 How many lines the hunks of diff delete and add, and that they are as few as can be when hash
 values tell the lines of the two files apart.
 */
module DiffLeast {
  import opened DiffLcs
  import opened DiffVector
  import opened DiffHunks
  import opened DiffText

  ghost function Deleted(hs: seq<Hunk>): int { if hs == [] then 0 else hs[0].b - hs[0].a + 1 + Deleted(hs[1..]) }

  ghost function Added(hs: seq<Hunk>): int { if hs == [] then 0 else hs[0].d - hs[0].c + 1 + Added(hs[1..]) }

  lemma {:induction false} SumCat(s: seq<Hunk>, t: seq<Hunk>)
    ensures Deleted(s + t) == Deleted(s) + Deleted(t) && Added(s + t) == Added(s) + Added(t)
  {
    if s == [] {
      assert s + t == t;
    } else {
      assert (s + t)[1..] == s[1..] + t;
      SumCat(s[1..], t);
    }
  }

  lemma {:induction false} SumReverse(s: seq<Hunk>)
    ensures Deleted(Reverse(s)) == Deleted(s) && Added(Reverse(s)) == Added(s)
  {
    if s != [] {
      SumReverse(s[1..]);
      SumCat(Reverse(s[1..]), [s[0]]);
      assert [s[0]][1..] == [];
    }
  }

  lemma SumOne(a: int, b: int, c: int, d: int)
    requires a <= b + 1 && c <= d + 1
    ensures Deleted(One(a, b, c, d)) == b - a + 1 && Added(One(a, b, c, d)) == d - c + 1
  {
    assert [Hunk(a, b, c, d)][1..] == [];
  }

  lemma {:induction false} CountNone(v: seq<int>, lo: nat, hi: nat)
    requires lo <= hi < |v| && forall u: nat :: lo < u <= hi ==> v[u] == 0
    ensures Count(v, lo, hi) == 0
    decreases hi
  {
    if lo < hi { CountNone(v, lo, hi - 1); }
  }

  /** A script deletes and adds just the lines that are not matched. */
  lemma {:induction false} ScriptSums(v: seq<int>, i: nat, j: nat, m: nat, n: nat)
    requires 1 <= i <= m + 1 && m < |v| && j <= n && Rises(v, i, m, n) && Above(v, i, j, m)
    ensures var s := Script(v, i, j, m, n);
            Deleted(s) == m + 1 - i - Count(v, i - 1, m) && Added(s) == n - j - Count(v, i - 1, m)
    decreases m + 1 - i
  {
    hide One, Deleted, Added;
    var e := NextMatch(v, i, m);
    if e == m + 1 {
      CountNone(v, i - 1, m);
      SumOne(i, m, j + 1, n);
    } else {
      CountNone(v, i - 1, e - 1);
      CountSplit(v, i - 1, e - 1, m);
      CountSplit(v, e - 1, e, m);
      assert Count(v, e - 1, e) == 1;
      ScriptSums(v, e + 1, v[e], m, n);
      SumOne(i, e - 1, j + 1, v[e] - 1);
      SumCat(One(i, e - 1, j + 1, v[e] - 1), Script(v, e + 1, v[e], m, n));
    }
  }

  /** Lines of the two files with the same hash value are equal. */
  ghost predicate HashesTell(l0: seq<seq<Byte>>, l1: seq<seq<Byte>>) {
    forall i: nat, j: nat :: i < |l0| && j < |l1| && LineHashes(l0)[i] == LineHashes(l1)[j] ==> l0[i] == l1[j]
  }

  /** Then lines and hash values have the same common subsequences. */
  lemma {:induction false} SameCommon(l0: seq<seq<Byte>>, l1: seq<seq<Byte>>, ps: seq<(int, int)>, i: int, j: int)
    requires HashesTell(l0, l1)
    ensures Common(LineHashes(l0), LineHashes(l1), ps, i, j) <==> Common(l0, l1, ps, i, j)
    decreases |ps|
  {
    if ps != [] {
      var n := |ps| - 1;
      SameCommon(l0, l1, ps[..n], ps[n].0 - 1, ps[n].1 - 1);
      hide LineHashes;
    }
  }

  lemma SameLcs(l0: seq<seq<Byte>>, l1: seq<seq<Byte>>, k: int)
    requires HashesTell(l0, l1)
    ensures IsLcs(LineHashes(l0), LineHashes(l1), k) <==> IsLcs(l0, l1, k)
  {
    hide Common, HashesTell, LineHashes;
    forall ps: seq<(int, int)>
      ensures Common(LineHashes(l0), LineHashes(l1), ps, |l0|, |l1|) <==> Common(l0, l1, ps, |l0|, |l1|)
    {
      SameCommon(l0, l1, ps, |l0|, |l1|);
    }
  }

  /** No matches of equal lines are more than a longest common subsequence has. */
  lemma MatchesBound(l0: seq<seq<Byte>>, l1: seq<seq<Byte>>, v: seq<int>, k: int)
    requires Vector(l0, l1, v) && IsLcs(LineHashes(l0), LineHashes(l1), k)
    ensures Count(v, 0, |l0|) <= k
  {
    var h0, h1 := LineHashes(l0), LineHashes(l1);
    assert Vector(h0, h1, v);
    hide Vector, LineHashes;
    MatchesIn(l0, l1, v);
    VectorCommon(h0, h1, v, |l0|, |l1|);
  }

  lemma MatchesIn(l0: seq<seq<Byte>>, l1: seq<seq<Byte>>, v: seq<int>)
    requires Vector(l0, l1, v)
    ensures forall i: nat :: 1 <= i <= |l0| && i < |v| ==> v[i] <= |l1|
  {
  }

  /** The hunks of matches that are as many as a longest common subsequence of the hash values has
      delete and add no more lines than those of any other matches of equal lines. */
  lemma LeastHunks(l0: seq<seq<Byte>>, l1: seq<seq<Byte>>, w: seq<int>, u: seq<int>)
    requires Vector(l0, l1, w) && Vector(l0, l1, u)
    requires |l0| < |w| && IsLcs(LineHashes(l0), LineHashes(l1), Count(w, 0, |l0|))
    ensures var s, t := Script(w, 1, 0, |l0|, |l1|), Script(u, 1, 0, |l0|, |l1|);
            Deleted(s) <= Deleted(t) && Added(s) <= Added(t)
  {
    hide Vector, IsLcs, LineHashes, Script, Deleted, Added, Rises;
    WholeSums(l0, l1, w);
    WholeSums(l0, l1, u);
    MatchesBound(l0, l1, u, Count(w, 0, |l0|));
  }

  lemma WholeSums(l0: seq<seq<Byte>>, l1: seq<seq<Byte>>, w: seq<int>)
    requires Vector(l0, l1, w)
    ensures |l0| < |w|
    ensures var s, c := Script(w, 1, 0, |l0|, |l1|), Count(w, 0, |l0|); Deleted(s) == |l0| - c && Added(s) == |l1| - c
  {
    hide Vector, Script, Deleted, Added;
    VectorRises(l0, l1, w);
    ScriptSums(w, 1, 0, |l0|, |l1|);
  }
}
