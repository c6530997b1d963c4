/**
 The match vector of diff: which line of the second file each line of the first is matched
 with, 0 for none.
 */
module DiffVector {
  import opened DiffLcs
  import opened DiffStone

  function Lift(y: int, d: int): int { if y == 0 then 0 else y + d }

  /** Matches rise, and match equal lines. */
  ghost predicate Vector<T>(h0: seq<T>, h1: seq<T>, v: seq<int>) {
    && |v| > |h0|
    && (forall i: nat :: 1 <= i <= |h0| ==> 0 <= v[i] <= |h1| && (v[i] != 0 ==> h0[i - 1] == h1[v[i] - 1]))
    && forall i: nat, j: nat :: 1 <= i < j <= |h0| && v[i] != 0 && v[j] != 0 ==> v[i] < v[j]
  }

  /** How many of lines lo + 1..hi are matched. */
  ghost function Count(v: seq<int>, lo: nat, hi: nat): nat
    requires hi < |v|
  {
    if hi <= lo then 0 else Count(v, lo, hi - 1) + if v[hi] != 0 then 1 else 0
  }

  lemma {:induction false} CountSplit(v: seq<int>, lo: nat, mid: nat, hi: nat)
    requires lo <= mid <= hi < |v|
    ensures Count(v, lo, hi) == Count(v, lo, mid) + Count(v, mid, hi)
    decreases hi - mid
  {
    if mid < hi { CountSplit(v, lo, mid, hi - 1); }
  }

  lemma {:induction false} CountAll(v: seq<int>, lo: nat, hi: nat)
    requires lo <= hi < |v| && forall i: nat :: lo < i <= hi ==> v[i] != 0
    ensures Count(v, lo, hi) == hi - lo
    decreases hi - lo
  {
    if lo < hi { CountAll(v, lo, hi - 1); }
  }

  // ---- the matches on a trail ----

  /** The line matched with line x on the way to candidate c. */
  ghost function MateOf(cl: seq<Cand>, c: int, x: int): int
    decreases c
  {
    if c <= 0 || c >= |cl| || !(0 <= cl[c].pred < c) then 0
    else if cl[c].x == x then cl[c].y
    else MateOf(cl, cl[c].pred, x)
  }

  lemma {:induction false} MateIn(h0: seq<int>, h1: seq<int>, cl: seq<Cand>, c: nat, x: int)
    requires CandsOk(h0, h1, cl) && c < |cl|
    ensures 0 <= MateOf(cl, c, x) <= cl[c].y
    ensures MateOf(cl, c, x) != 0 ==>
            1 <= x <= cl[c].x <= |h0| && cl[c].y <= |h1| && h0[x - 1] == h1[MateOf(cl, c, x) - 1]
    decreases c
  {
    assert CandOk(h0, h1, cl, c);
    if c > 0 && cl[c].x != x { MateIn(h0, h1, cl, cl[c].pred, x); }
  }

  lemma {:induction false} MatesRise(h0: seq<int>, h1: seq<int>, cl: seq<Cand>, c: nat, x: int, x': int)
    requires CandsOk(h0, h1, cl) && c < |cl| && x < x' && MateOf(cl, c, x) != 0 && MateOf(cl, c, x') != 0
    ensures MateOf(cl, c, x) < MateOf(cl, c, x')
    decreases c
  {
    assert CandOk(h0, h1, cl, c);
    var d := cl[c].pred;
    MateIn(h0, h1, cl, c, x');
    if cl[c].x == x' { MateIn(h0, h1, cl, d, x); } else if cl[c].x != x { MatesRise(h0, h1, cl, d, x, x'); }
  }

  ghost function CountMates(cl: seq<Cand>, c: int, x: nat): nat {
    if x == 0 then 0 else CountMates(cl, c, x - 1) + if MateOf(cl, c, x) != 0 then 1 else 0
  }

  lemma {:induction false} CountSame(cl: seq<Cand>, c: int, d: int, x: nat)
    requires forall u: nat :: 1 <= u <= x ==> MateOf(cl, c, u) == MateOf(cl, d, u)
    ensures CountMates(cl, c, x) == CountMates(cl, d, x)
  {
    if x > 0 { CountSame(cl, c, d, x - 1); }
  }

  lemma CountNone(h0: seq<int>, h1: seq<int>, cl: seq<Cand>, x: nat)
    requires CandsOk(h0, h1, cl)
    ensures CountMates(cl, 0, x) == 0
  {
  }

  /** As many lines are matched as the trail is long. */
  lemma {:induction false} CountTrail(h0: seq<int>, h1: seq<int>, cl: seq<Cand>, c: nat, x: nat)
    requires CandsOk(h0, h1, cl) && c < |cl| && cl[c].x <= x
    ensures CountMates(cl, c, x) == |Trail(cl, c)|
    decreases c, x
  {
    assert CandOk(h0, h1, cl, c);
    if c == 0 {
      CountNone(h0, h1, cl, x);
    } else if cl[c].x < x {
      MateIn(h0, h1, cl, c, x);
      CountTrail(h0, h1, cl, c, x - 1);
    } else {
      var d := cl[c].pred;
      CountSame(cl, c, d, x - 1);
      CountTrail(h0, h1, cl, d, x - 1);
    }
  }

  // ---- the vector unravel makes ----

  /** Entry i of the vector, for the trail of candidate c in the middle of the files. */
  ghost function Entry(cl: seq<Cand>, c: int, len0: nat, len1: nat, pref: nat, suff: nat, i: int): int {
    if i <= pref then i else if i > len0 - suff then i + len1 - len0 else Lift(MateOf(cl, c, i - pref), pref)
  }

  ghost predicate Unravelled(cl: seq<Cand>, c: int, len0: nat, len1: nat, pref: nat, suff: nat, v: seq<int>) {
    |v| > len0 && forall i: nat :: i <= len0 ==> v[i] == Entry(cl, c, len0, len1, pref, suff, i)
  }

  /** The files agree on a beginning of length pref and an end of length suff. */
  ghost predicate Pruned(h0: seq<int>, h1: seq<int>, pref: nat, suff: nat) {
    && pref + suff <= |h0| && pref + suff <= |h1|
    && h0[..pref] == h1[..pref] && h0[|h0| - suff..] == h1[|h1| - suff..]
  }

  function Middle(h: seq<int>, pref: nat, suff: nat): seq<int>
    requires pref + suff <= |h|
  {
    h[pref..|h| - suff]
  }

  lemma EntryOk(h0: seq<int>, h1: seq<int>, cl: seq<Cand>, c: nat, pref: nat, suff: nat, i: nat)
    requires Pruned(h0, h1, pref, suff) && 1 <= i <= |h0| && c < |cl|
    requires CandsOk(Middle(h0, pref, suff), Middle(h1, pref, suff), cl)
    ensures var y := Entry(cl, c, |h0|, |h1|, pref, suff, i);
            && 0 <= y <= |h1| && (y != 0 ==> h0[i - 1] == h1[y - 1])
            && (i <= pref ==> y == i) && (y != 0 && i > pref ==> y > pref)
            && (i > |h0| - suff ==> y > |h1| - suff) && (i <= |h0| - suff ==> y <= |h1| - suff)
  {
    if i <= pref {
      assert h0[..pref][i - 1] == h1[..pref][i - 1];
    } else if i > |h0| - suff {
      var k := i - 1 - (|h0| - suff);
      assert h0[|h0| - suff..][k] == h1[|h1| - suff..][k];
    } else {
      MateIn(Middle(h0, pref, suff), Middle(h1, pref, suff), cl, c, i - pref);
      assert CandOk(Middle(h0, pref, suff), Middle(h1, pref, suff), cl, c);
    }
  }

  /** The vector matches equal lines, in order. */
  lemma UnravelledVector(h0: seq<int>, h1: seq<int>, cl: seq<Cand>, c: nat, pref: nat, suff: nat, v: seq<int>)
    requires Pruned(h0, h1, pref, suff) && c < |cl| && Unravelled(cl, c, |h0|, |h1|, pref, suff, v)
    requires CandsOk(Middle(h0, pref, suff), Middle(h1, pref, suff), cl)
    ensures Vector(h0, h1, v)
  {
    hide CandsOk, MateOf;
    forall i: nat | 1 <= i <= |h0| ensures 0 <= v[i] <= |h1| && (v[i] != 0 ==> h0[i - 1] == h1[v[i] - 1]) {
      EntryOk(h0, h1, cl, c, pref, suff, i);
    }
    forall i: nat, j: nat | 1 <= i < j <= |h0| && v[i] != 0 && v[j] != 0 ensures v[i] < v[j] {
      EntryOk(h0, h1, cl, c, pref, suff, i);
      EntryOk(h0, h1, cl, c, pref, suff, j);
      if pref < i && j <= |h0| - suff {
        MatesRise(Middle(h0, pref, suff), Middle(h1, pref, suff), cl, c, i - pref, j - pref);
      }
    }
  }

  lemma {:induction false} CountMiddle(cl: seq<Cand>, c: int, len0: nat, len1: nat, pref: nat, suff: nat, v: seq<int>,
      x: nat)
    requires Unravelled(cl, c, len0, len1, pref, suff, v) && pref + x + suff <= len0
    requires forall u: nat :: 1 <= u <= x ==> MateOf(cl, c, u) >= 0
    ensures Count(v, pref, pref + x) == CountMates(cl, c, x)
    decreases x
  {
    if x > 0 {
      CountMiddle(cl, c, len0, len1, pref, suff, v, x - 1);
      assert v[pref + x] == Entry(cl, c, len0, len1, pref, suff, pref + x);
      assert MateOf(cl, c, x) >= 0;
    }
  }

  /** It has pref + k + suff matches for a trail of length k. */
  lemma UnravelledCount(h0: seq<int>, h1: seq<int>, cl: seq<Cand>, c: nat, pref: nat, suff: nat, v: seq<int>)
    requires Pruned(h0, h1, pref, suff) && c < |cl| && Unravelled(cl, c, |h0|, |h1|, pref, suff, v)
    requires CandsOk(Middle(h0, pref, suff), Middle(h1, pref, suff), cl)
    ensures Count(v, 0, |h0|) == pref + |Trail(cl, c)| + suff
  {
    var m0, m1 := Middle(h0, pref, suff), Middle(h1, pref, suff);
    var hi := |h0| - suff;
    assert CandOk(m0, m1, cl, c);
    forall i: nat | 1 <= i <= |h0| ensures 0 <= v[i] && (i <= pref || i > hi ==> v[i] != 0) {
      EntryOk(h0, h1, cl, c, pref, suff, i);
    }
    forall u: nat | 1 <= u <= hi - pref ensures MateOf(cl, c, u) >= 0 { MateIn(m0, m1, cl, c, u); }
    CountSplit(v, 0, pref, |h0|);
    CountSplit(v, pref, hi, |h0|);
    CountAll(v, 0, pref);
    CountAll(v, hi, |h0|);
    CountMiddle(cl, c, |h0|, |h1|, pref, suff, v, hi - pref);
    CountTrail(m0, m1, cl, c, hi - pref);
  }

  /** And if the trail is longest in the middle, no common subsequence of the files is longer. */
  lemma PrunedLcs(h0: seq<int>, h1: seq<int>, pref: nat, suff: nat, k: int)
    requires Pruned(h0, h1, pref, suff) && IsLcs(Middle(h0, pref, suff), Middle(h1, pref, suff), k)
    ensures IsLcs(h0, h1, pref + k + suff)
  {
    hide IsLcs;
    LcsPruned(h0[..pref], Middle(h0, pref, suff), Middle(h1, pref, suff), h0[|h0| - suff..], k);
    ThreeParts(h0, pref, suff);
    ThreeParts(h1, pref, suff);
  }

  lemma ThreeParts(h: seq<int>, pref: nat, suff: nat)
    requires pref + suff <= |h|
    ensures h[..pref] + Middle(h, pref, suff) + h[|h| - suff..] == h
  {
  }

  // ---- the matches as a common subsequence ----

  ghost function Pairs(v: seq<int>, i: nat): seq<(int, int)>
    requires i < |v|
  {
    if i == 0 then [] else if v[i] == 0 then Pairs(v, i - 1) else Pairs(v, i - 1) + [(i, v[i])]
  }

  lemma MatchAt<T>(h0: seq<T>, h1: seq<T>, v: seq<int>, i: nat)
    requires Vector(h0, h1, v) && 1 <= i <= |h0|
    ensures i < |v| && 0 <= v[i] <= |h1| && (v[i] != 0 ==> h0[i - 1] == h1[v[i] - 1])
    ensures v[i] != 0 ==> forall j: nat :: 1 <= j < i ==> v[j] < v[i]
    ensures v[i] != 0 ==> forall j: nat :: i < j <= |h0| && v[j] != 0 ==> v[i] < v[j]
  {
  }

  /** The matches of a vector are a common subsequence of as many lines. */
  lemma {:induction false} VectorCommon(h0: seq<int>, h1: seq<int>, v: seq<int>, i: nat, top: int)
    requires Vector(h0, h1, v) && i <= |h0| && 0 <= top <= |h1| && forall j: nat :: 1 <= j <= i ==> v[j] <= top
    ensures |Pairs(v, i)| == Count(v, 0, i) && Common(h0, h1, Pairs(v, i), i, top)
    decreases i
  {
    hide Vector;
    if i > 0 {
      MatchAt(h0, h1, v, i);
      if v[i] == 0 {
        VectorCommon(h0, h1, v, i - 1, top);
        CommonMore(h0, h1, Pairs(v, i), i - 1, top, i);
      } else {
        VectorCommon(h0, h1, v, i - 1, v[i] - 1);
        var ps, qs := Pairs(v, i - 1), Pairs(v, i);
        assert qs[..|qs| - 1] == ps;
      }
    }
  }

  lemma CommonMore(a: seq<int>, b: seq<int>, ps: seq<(int, int)>, i: int, j: int, i': int)
    requires Common(a, b, ps, i, j) && i <= i' <= |a|
    ensures Common(a, b, ps, i', j)
  {
  }
}
