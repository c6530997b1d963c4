/**
 The matching stage of diff: the globals it works on, and each of its steps.
 */
module DiffMatch {
  import opened DiffLcs
  import opened DiffSort
  import opened DiffClass
  import opened DiffStone
  import opened DiffVector

  const INT_MAX := 0x7FFF_FFFF
  const UINT_MAX := 0xFFFF_FFFF

  /** The hash values of lines 1..n of a file. */
  function Hashes(a: seq<Line>, n: nat): (h: seq<int>)
    requires n < |a|
    ensures |h| == n
  {
    seq(n, i requires 0 <= i < n => a[i + 1].value)
  }

  class Differ {
    var clist: seq<Cand>
    var klist: array<int>

    constructor (n: nat)
      ensures clist == [] && klist.Length == n + 2 && fresh(klist)
    {
      clist := [];
      klist := new int[n + 2];
    }

    ghost function Ks(k: nat): seq<int>
      requires k < klist.Length
      reads this, klist
    {
      klist[..k + 1]
    }

    /** newcand. */
    method NewCand(x: int, y: int, pred: int) returns (c: int)
      modifies this`clist
      ensures clist == old(clist) + [Cand(x, y, pred)] && c == old(|clist|)
    {
      c := |clist|;
      clist := clist + [Cand(x, y, pred)];
    }

    /** search: the lowest rung whose end is not before y, or one above the highest. */
    method Search(k: nat, y: int) returns (l: nat)
      requires k < klist.Length && Indices(clist, Ks(k)) && Rising(Ends(clist, Ks(k))) && Ends(clist, Ks(k))[0] < y
      ensures 1 <= l <= k + 1 && Ends(clist, Ks(k))[l - 1] < y && (l <= k ==> y <= Ends(clist, Ks(k))[l])
    {
      ghost var ends := Ends(clist, Ks(k));
      assert forall u: nat :: u <= k ==> Ks(k)[u] == klist[u];
      if clist[klist[k]].y < y { return k + 1; }
      var i, j := 0, k + 1;
      l := (i + j) / 2;
      while l > i
        invariant 0 <= i < j <= k + 1 && l == (i + j) / 2
        invariant ends[i] < y && (j <= k ==> y < ends[j]) && (j == k + 1 ==> y <= ends[k])
        decreases j - i
      {
        var t := clist[klist[l]].y;
        assert t == ends[l];
        if t > y {
          j := l;
        } else if t < y {
          i := l;
        } else {
          return l;
        }
        l := (i + j) / 2;
      }
      return l + 1;
    }

    /** The body of the inner loop of stone: line i is tried against line y. */
    method Place(ghost h0: seq<int>, ghost h1: seq<int>, ghost cl0: seq<Cand>, ghost ks0: seq<int>,
               i: nat, k: nat, y: int, oldl: nat, oldc: int, ghost o: nat, ghost z: int)
      returns (oldl': nat, oldc': int, tried: nat, grown: bool, ghost o': nat, ghost l': nat)
      requires |h0| + 1 < klist.Length && k < i <= |h0| && Working(h0, h1, i, cl0, ks0, clist, Ks(k))
      requires Trying(Ends(cl0, ks0), Ends(clist, Ks(k)), ks0, Ks(k), oldl, oldc, o, y)
      requires y < z && 1 <= y <= |h1| && h0[i - 1] == h1[y - 1]
      modifies this`clist, klist
      ensures Working(h0, h1, i, cl0, ks0, clist, Ks(if grown then k + 1 else k)) && tried <= 1
      ensures var prev, cur, now := Ends(cl0, ks0), old(Ends(clist, Ks(k))),
              Ends(clist, Ks(if grown then k + 1 else k));
              && (now == cur || (l' <= |cur| && now == Put(cur, l', y) && (l' < |cur| ==> y <= cur[l'])))
              && (grown ==> now == Put(cur, |cur|, y))
              && (!grown ==> Settled(prev, now, y) && Trying(prev, now, ks0, Ks(k), oldl', oldc', o', z))
    {
      hide Ladder, Sound, Settled, Rising;
      ghost var cl, ks, prev := clist, Ks(k), Ends(cl0, ks0);
      ghost var cur := Ends(cl, ks);
      oldl', oldc', tried, grown, o', l' := oldl, oldc, 0, false, o, 0;
      assert clist[oldc].y == prev[o];
      if y <= clist[oldc].y {
        SkipSettled(prev, cur, ks0, ks, oldl, oldc, o, y);
        TryLater(prev, cur, ks0, ks, oldl, oldc, o, y, z);
        return;
      }
      var l := Search(k, y);
      Found(prev, cur, ks0, ks, oldl, oldc, o, y, l);
      if l != oldl + 1 { oldc' := klist[l - 1]; }
      assert klist[l - 1] == ks[l - 1] && oldc' == ks0[l - 1];
      if l <= k {
        assert klist[l] == ks[l];
        if clist[klist[l]].y <= y {
          TrySame(prev, cur, ks0, ks, oldl, oldc, o, y, l, z);
          o' := l - 1;
        } else {
          TryNext(prev, cur, ks0, ks, oldl, oldc, o, y, l, |cl|, z);
          l' := l;
          var tc := klist[l];
          Replace(h0, h1, cl0, ks0, i, k, l, y, oldc');
          oldc', oldl', tried, o' := tc, l, 1, l;
        }
      } else {
        grown, l' := true, l;
        Grow(h0, h1, cl0, ks0, i, k, y, oldc');
      }
    }

    /** A better candidate takes rung l. */
    method Replace(ghost h0: seq<int>, ghost h1: seq<int>, ghost cl0: seq<Cand>, ghost ks0: seq<int>,
                   i: nat, k: nat, l: nat, y: int, pred: int)
      requires k < klist.Length && Working(h0, h1, i, cl0, ks0, clist, Ks(k)) && |ks0| == k + 1 && 1 <= l <= k
      requires pred == ks0[l - 1] && Improves(h0, h1, i, Ends(cl0, ks0), l, y) && y < Ends(clist, Ks(k))[l]
      modifies this`clist, klist
      ensures Working(h0, h1, i, cl0, ks0, clist, Ks(k))
      ensures Ks(k) == Put(old(Ks(k)), l, old(|clist|)) && Ends(clist, Ks(k)) == Put(old(Ends(clist, Ks(k))), l, y)
    {
      hide Ladder, Sound;
      Install(h0, h1, i, cl0, ks0, clist, Ks(k), l, y);
      var c := NewCand(i, y, pred);
      klist[l] := c;
      assert Ks(k) == Put(old(Ks(k)), l, c);
    }

    /** A candidate for a longer subsequence than any before. */
    method Grow(ghost h0: seq<int>, ghost h1: seq<int>, ghost cl0: seq<Cand>, ghost ks0: seq<int>, i: nat, k: nat,
        y: int, pred: int)
      requires k + 1 < klist.Length && Working(h0, h1, i, cl0, ks0, clist, Ks(k)) && |ks0| == k + 1
      requires pred == ks0[k] && Improves(h0, h1, i, Ends(cl0, ks0), k + 1, y)
      modifies this`clist, klist
      ensures Working(h0, h1, i, cl0, ks0, clist, Ks(k + 1))
      ensures Ends(clist, Ks(k + 1)) == Put(old(Ends(clist, Ks(k))), k + 1, y)
    {
      hide Ladder, Sound;
      Install(h0, h1, i, cl0, ks0, clist, Ks(k), k + 1, y);
      var c := NewCand(i, y, pred);
      klist[k + 1] := c;
      assert Ks(k + 1) == Put(old(Ks(k)), k + 1, c);
    }

    /** The body of the inner loop, at place j of the member list. */
    method Try(ghost h0: seq<int>, ghost h1: seq<int>, ghost cl0: seq<Cand>, ghost ks0: seq<int>,
               i: nat, k: nat, mem: seq<int>, ghost j0: nat, ghost e: nat, j: nat, y: int, oldl: nat, oldc: int,
                   ghost o: nat)
      returns (oldl': nat, oldc': int, tried: nat, grown: bool, ghost o': nat)
      requires |h0| + 1 < klist.Length && k < i <= |h0| && j0 <= j < e && Block(h1, mem, h0[i - 1], j0, e)
      requires Mid(h0, h1, i, cl0, ks0, clist, Ks(k), mem, j0, j, oldl, oldc, o, y) && y == Abs(mem[j])
      modifies this`clist, klist
      ensures tried <= 1 && Working(h0, h1, i, cl0, ks0, clist, Ks(if grown then k + 1 else k))
      ensures grown ==> AllSettled(h0, h1, i, Ends(cl0, ks0), Ends(clist, Ks(k + 1)))
      ensures !grown ==> Mid(h0, h1, i, cl0, ks0, clist, Ks(k), mem, j0, j + 1, oldl', oldc', o',
                             if j + 1 < e then Abs(mem[j + 1]) else y + 1)
    {
      hide Ladder, Sound, Settled, Rising, Block, AllSettled, SettledTo, Indices, Put;
      ghost var prev, cur := Ends(cl0, ks0), Ends(clist, Ks(k));
      BlockAt(h1, mem, h0[i - 1], j0, e, j);
      ghost var z := if j + 1 < e then Abs(mem[j + 1]) else y + 1;
      ghost var l;
      oldl', oldc', tried, grown, o', l := Place(h0, h1, cl0, ks0, i, k, y, oldl, oldc, o, z);
      if grown {
        EndsRise(h0, h1, clist, Ks(k + 1), i);
        SettledGrown(h0, h1, i, prev, cur, mem, j0, e, j, y);
      } else {
        SettledNext(prev, cur, Ends(clist, Ks(k)), mem, j0, j, l, y);
      }
    }

    /** The inner loop of stone: line i is tried against the lines of its class, from place j0
        of the member list. */
    method Mate(ghost h0: seq<int>, ghost h1: seq<int>, i: nat, j0: nat, mem: seq<int>, k: nat, bound: nat,
        ghost e: nat)
      returns (k': nat)
      requires 1 <= i <= |h0| && |h0| + 1 < klist.Length && k < i && Ladder(h0, h1, clist, Ks(k), i - 1)
      requires j0 < e && Block(h1, mem, h0[i - 1], j0, e)
      modifies this`clist, klist
      ensures k <= k' <= k + 1
      ensures Working(h0, h1, i, old(clist), old(Ks(k)), clist, Ks(k'))
      ensures bound >= |h1| ==> AllSettled(h0, h1, i, Ends(old(clist), old(Ks(k))), Ends(clist, Ks(k')))
    {
      hide Ladder, Block, AllSettled, Working, Mid;
      ghost var cl0, ks0 := clist, Ks(k);
      BlockAt(h1, mem, h0[i - 1], j0, e, j0);
      var j := j0;
      var y := -mem[j];
      var oldl, oldc, tries := 0, klist[0], 0;
      ghost var o := 0;
      MidFirst(h0, h1, i, cl0, ks0, mem, j0, y);
      while true
        invariant j0 <= j < e && y == Abs(mem[j]) && tries <= j - j0
        invariant Mid(h0, h1, i, cl0, ks0, clist, Ks(k), mem, j0, j, oldl, oldc, o, y)
        decreases e - j
      {
        BlockAt(h1, mem, h0[i - 1], j0, e, j);
        var tried, grown;
        oldl, oldc, tried, grown, o := Try(h0, h1, cl0, ks0, i, k, mem, j0, e, j, y, oldl, oldc, o);
        if grown { return k + 1; }
        tries := tries + tried;
        j := j + 1;
        y := mem[j];
        if !(y > 0 && tries < bound) { break; }
      }
      k' := k;
      MidLast(h0, h1, i, cl0, ks0, clist, Ks(k), mem, j0, j, e, oldl, oldc, o,
              if j < e then y else Abs(mem[j - 1]) + 1);
    }

    /** stone: the number of matches, after which entry k of klist leads to that many. If the
        search was not cut short they are as many as can be. */
    method Stone(ghost h0: seq<int>, ghost h1: seq<int>, a: seq<int>, n: nat, b: seq<int>, minimal: bool, root: nat)
      returns (k: nat)
      requires n == |h0| < |a| && |h1| <= INT_MAX && klist.Length == n + 2 && clist == []
      requires forall i: nat :: 1 <= i <= n ==> Mates(h1, b, h0[i - 1], a[i])
      modifies this`clist, klist
      ensures k <= n && Ladder(h0, h1, clist, Ks(k), n)
      ensures minimal || |h1| <= 256 || |h1| <= root ==> IsLcs(h0, h1, k)
    {
      hide Ladder, Row, Working, IsLcs;
      var bound := if minimal then UINT_MAX else if root > 256 then root else 256;
      k := 0;
      var c := NewCand(0, 0, 0);
      klist[0] := c;
      assert Ks(0) == [0] && clist == [Cand(0, 0, 0)];
      FirstStep(h0, h1);
      for i := 1 to n + 1
        invariant k < i && Ladder(h0, h1, clist, Ks(k), i - 1) && Indices(clist, Ks(k))
        invariant bound >= |h1| ==> Row(h0, h1, i - 1, Ends(clist, Ks(k)))
      {
        ghost var cl0, ks0 := clist, Ks(k);
        var j := a[i];
        if j == 0 {
          SameStep(h0, h1, i, clist, Ks(k), b, bound >= |h1|);
        } else {
          ghost var e: nat :| Block(h1, b, h0[i - 1], j, e);
          assert j < e;
          k := Mate(h0, h1, i, j, b, k, bound, e);
          NextStep(h0, h1, i, cl0, ks0, clist, Ks(k), bound >= |h1|);
        }
      }
      if bound >= |h1| { LastStep(h0, h1, clist, Ks(k)); }
    }

    /** unravel: the vector for the trail of candidate p. */
    method Unravel(p: nat, vec: array<int>, len0: nat, len1: nat, pref: nat, suff: nat, ghost h0: seq<int>,
        ghost h1: seq<int>)
      requires p < |clist| && CandsOk(h0, h1, clist) && |h0| == len0 - pref - suff && len0 < vec.Length
      modifies vec
      ensures Unravelled(clist, p, len0, len1, pref, suff, vec[..])
    {
      for i := 0 to len0 + 1
        invariant forall u: nat :: u < i ==> vec[u] == Entry([], 0, len0, len1, pref, suff, u)
      {
        vec[i] := if i <= pref then i else if i > len0 - suff then i + len1 - len0 else 0;
      }
      var q: int := p;
      assert CandOk(h0, h1, clist, q);
      forall x: int ensures x > clist[q].x ==> MateOf(clist, q, x) == 0 { MateIn(h0, h1, clist, q, x); }
      while clist[q].y != 0
        invariant 0 <= q < |clist| && CandOk(h0, h1, clist, q)
        invariant forall x: int :: x <= clist[q].x ==> MateOf(clist, p, x) == MateOf(clist, q, x)
        invariant forall u: nat :: u <= len0 ==>
          vec[u] == if u - pref > clist[q].x then Entry(clist, p, len0, len1, pref, suff, u)
              else Entry([], 0, len0, len1, pref, suff, u)
      {
        ghost var d := clist[q].pred;
        assert CandOk(h0, h1, clist, d);
        forall x: int ensures x > clist[d].x ==> MateOf(clist, d, x) == 0 { MateIn(h0, h1, clist, d, x); }
        assert MateOf(clist, q, clist[q].x) == clist[q].y;
        assert forall x: int :: x < clist[q].x ==> MateOf(clist, q, x) == MateOf(clist, d, x);
        vec[clist[q].x + pref] := clist[q].y + pref;
        q := clist[q].pred;
      }
      assert q == 0;
    }
  }

  lemma FirstStep(h0: seq<int>, h1: seq<int>)
    ensures Ladder(h0, h1, [Cand(0, 0, 0)], [0], 0) && Indices([Cand(0, 0, 0)], [0])
    ensures Row(h0, h1, 0, Ends([Cand(0, 0, 0)], [0]))
  {
    LadderFirst(h0, h1);
    RowFirst(h0, h1);
    assert Ends([Cand(0, 0, 0)], [0]) == [0];
  }

  lemma SameStep(h0: seq<int>, h1: seq<int>, i: int, cl: seq<Cand>, ks: seq<int>, b: seq<int>, full: bool)
    requires 1 <= i <= |h0| && Ladder(h0, h1, cl, ks, i - 1) && Mates(h1, b, h0[i - 1], 0)
    requires full ==> Row(h0, h1, i - 1, Ends(cl, ks))
    ensures Ladder(h0, h1, cl, ks, i) && (full ==> Row(h0, h1, i, Ends(cl, ks)))
  {
    LadderMore(h0, h1, cl, ks, i - 1);
    if full { RowSame(h0, h1, i, Ends(cl, ks)); }
  }

  lemma NextStep(h0: seq<int>, h1: seq<int>, i: int, cl0: seq<Cand>, ks0: seq<int>, cl: seq<Cand>, ks: seq<int>,
      full: bool)
    requires Working(h0, h1, i, cl0, ks0, cl, ks)
    requires full ==> Row(h0, h1, i - 1, Ends(cl0, ks0)) && AllSettled(h0, h1, i, Ends(cl0, ks0), Ends(cl, ks))
    ensures Ladder(h0, h1, cl, ks, i) && Indices(cl, ks) && (full ==> Row(h0, h1, i, Ends(cl, ks)))
  {
    hide Ladder, Row, Sound, Settled, Indices, Ends;
    if full { RowNext(h0, h1, i, Ends(cl0, ks0), Ends(cl, ks)); }
  }

  lemma LastStep(h0: seq<int>, h1: seq<int>, cl: seq<Cand>, ks: seq<int>)
    requires Ladder(h0, h1, cl, ks, |h0|) && Row(h0, h1, |h0|, Ends(cl, ks))
    ensures IsLcs(h0, h1, |ks| - 1)
  {
    var row := Ends(cl, ks);
    forall l: nat | l < |row| ensures row[l] <= |h1| { assert CandOk(h0, h1, cl, ks[l]); }
    hide Ladder, Row;
    RowLcs(h0, h1, row);
  }

  /** In the midst of line i: the members at places j0..j are done with and y comes next. */
  ghost predicate Mid(h0: seq<int>, h1: seq<int>, i: int, cl0: seq<Cand>, ks0: seq<int>, cl: seq<Cand>, ks: seq<int>,
                      mem: seq<int>, j0: nat, j: nat, oldl: nat, oldc: int, o: nat, y: int) {
    && Working(h0, h1, i, cl0, ks0, cl, ks) && Trying(Ends(cl0, ks0), Ends(cl, ks), ks0, ks, oldl, oldc, o, y)
    && SettledTo(Ends(cl0, ks0), Ends(cl, ks), mem, j0, j)
  }

  lemma MidFirst(h0: seq<int>, h1: seq<int>, i: int, cl0: seq<Cand>, ks0: seq<int>, mem: seq<int>, j0: nat, y: int)
    requires 1 <= i <= |h0| && Ladder(h0, h1, cl0, ks0, i - 1) && 1 <= y && j0 <= |mem|
    ensures Mid(h0, h1, i, cl0, ks0, cl0, ks0, mem, j0, j0, 0, ks0[0], 0, y)
  {
    TryFirst(h0, h1, i, cl0, ks0, y);
    SettledNone(Ends(cl0, ks0), mem, j0);
  }

  lemma MidLast(h0: seq<int>, h1: seq<int>, i: int, cl0: seq<Cand>, ks0: seq<int>, cl: seq<Cand>, ks: seq<int>,
                mem: seq<int>, j0: nat, j: nat, e: nat, oldl: nat, oldc: int, o: nat, y: int)
    requires 1 <= i <= |h0| && Mid(h0, h1, i, cl0, ks0, cl, ks, mem, j0, j, oldl, oldc, o, y)
    requires Block(h1, mem, h0[i - 1], j0, e)
    ensures Working(h0, h1, i, cl0, ks0, cl, ks)
    ensures j == e ==> AllSettled(h0, h1, i, Ends(cl0, ks0), Ends(cl, ks))
  {
    if j == e { SettledAll(h0, h1, i, Ends(cl0, ks0), Ends(cl, ks), mem, j0, e); }
  }

  lemma SettledNone(prev: seq<int>, mem: seq<int>, j0: nat)
    requires j0 <= |mem|
    ensures SettledTo(prev, prev, mem, j0, j0)
  {
  }

  lemma BlockAt(h: seq<int>, mem: seq<int>, v: int, j0: nat, e: nat, j: nat)
    requires Block(h, mem, v, j0, e) && j0 <= j < e
    ensures 1 <= j0 && e <= |h| + 1 < |mem| && mem[j0] < 0
    ensures 1 <= Abs(mem[j]) <= |h| && h[Abs(mem[j]) - 1] == v
    ensures if j + 1 < e then mem[j + 1] > 0 && Abs(mem[j]) < Abs(mem[j + 1]) else mem[j + 1] < 0
  {
  }

  // ---- prune, and the stages together ----

  /** The first loop of prune. */
  method PrefixLength(file0: array<Line>, len0: nat, file1: array<Line>, len1: nat) returns (pref: nat)
    requires len0 < file0.Length && len1 < file1.Length
    ensures var h0, h1 := Hashes(file0[..], len0), Hashes(file1[..], len1);
            pref <= len0 && pref <= len1 && h0[..pref] == h1[..pref]
                && (pref == len0 || pref == len1 || h0[pref] != h1[pref])
  {
    ghost var h0, h1 := Hashes(file0[..], len0), Hashes(file1[..], len1);
    pref := 0;
    while pref < len0 && pref < len1 && file0[pref + 1].value == file1[pref + 1].value
      invariant pref <= len0 && pref <= len1 && h0[..pref] == h1[..pref]
    {
      assert h0[pref] == h1[pref];
      pref := pref + 1;
    }
  }

  /** The second loop of prune. */
  method SuffixLength(file0: array<Line>, len0: nat, file1: array<Line>, len1: nat, pref: nat) returns (suff: nat)
    requires pref <= len0 < file0.Length && pref <= len1 < file1.Length
    ensures var h0, h1 := Hashes(file0[..], len0), Hashes(file1[..], len1);
            && pref + suff <= len0 && pref + suff <= len1 && h0[len0 - suff..] == h1[len1 - suff..]
            && (pref + suff == len0 || pref + suff == len1 || h0[len0 - suff - 1] != h1[len1 - suff - 1])
  {
    hide SameEnds;
    ghost var h0, h1 := Hashes(file0[..], len0), Hashes(file1[..], len1);
    suff := 0;
    NoEnds(h0, h1);
    while suff < len0 - pref && suff < len1 - pref && file0[len0 - suff].value == file1[len1 - suff].value
      invariant pref + suff <= len0 && pref + suff <= len1 && SameEnds(h0, h1, suff)
    {
      assert h0[len0 - suff - 1] == h1[len1 - suff - 1];
      EndsMore(h0, h1, suff);
      suff := suff + 1;
    }
    EndsAre(h0, h1, suff);
  }

  ghost predicate SameEnds(h0: seq<int>, h1: seq<int>, suff: nat) {
    suff <= |h0| && suff <= |h1| && h0[|h0| - suff..] == h1[|h1| - suff..]
  }

  lemma NoEnds(h0: seq<int>, h1: seq<int>)
    ensures SameEnds(h0, h1, 0)
  {
  }

  lemma EndsAre(h0: seq<int>, h1: seq<int>, suff: nat)
    requires SameEnds(h0, h1, suff)
    ensures suff <= |h0| && suff <= |h1| && h0[|h0| - suff..] == h1[|h1| - suff..]
  {
  }

  lemma EndsMore(h0: seq<int>, h1: seq<int>, suff: nat)
    requires suff < |h0| && suff < |h1| && SameEnds(h0, h1, suff) && h0[|h0| - suff - 1] == h1[|h1| - suff - 1]
    ensures SameEnds(h0, h1, suff + 1)
  {
    assert h0[|h0| - suff - 1..] == [h0[|h0| - suff - 1]] + h0[|h0| - suff..];
    assert h1[|h1| - suff - 1..] == [h1[|h1| - suff - 1]] + h1[|h1| - suff..];
  }

  /** prune: the lengths of the common beginning and end; the lines between get serial
      numbers. */
  method Prune(file0: array<Line>, len0: nat, file1: array<Line>, len1: nat) returns (pref: nat, suff: nat)
    requires file0 != file1 && len0 < file0.Length && len1 < file1.Length
    modifies file0, file1
    ensures Hashes(file0[..], len0) == old(Hashes(file0[..], len0))
    ensures Hashes(file1[..], len1) == old(Hashes(file1[..], len1))
    ensures var h0, h1 := Hashes(file0[..], len0), Hashes(file1[..], len1);
            && Pruned(h0, h1, pref, suff)
            && (pref == len0 || pref == len1 || h0[pref] != h1[pref])
            && (pref + suff == len0 || pref + suff == len1 || h0[len0 - suff - 1] != h1[len1 - suff - 1])
            && file0[pref + 1..len0 - suff + 1] == Numbered(Middle(h0, pref, suff))
            && file1[pref + 1..len1 - suff + 1] == Numbered(Middle(h1, pref, suff))
  {
    hide Hashes, Numbered;
    pref := PrefixLength(file0, len0, file1, len1);
    suff := SuffixLength(file0, len0, file1, len1, pref);
    Number(file0, len0, pref, suff);
    Number(file1, len1, pref, suff);
  }

  method Number(file: array<Line>, len: nat, pref: nat, suff: nat)
    requires len < file.Length && pref + suff <= len
    modifies file
    ensures Hashes(file[..], len) == old(Hashes(file[..], len))
    ensures file[pref + 1..len - suff + 1] == Numbered(Middle(Hashes(file[..], len), pref, suff))
  {
    for i := 0 to len - pref - suff + 1
      invariant forall k: nat :: k < file.Length ==> file[k].value == old(file[k].value)
      invariant forall k: nat :: pref <= k < pref + i ==> file[k].serial == k - pref
    {
      file[pref + i] := file[pref + i].(serial := i);
    }
    ghost var t, u := file[pref + 1..len - suff + 1], Numbered(Middle(Hashes(file[..], len), pref, suff));
    forall k: nat | k < |t| ensures t[k] == u[k] { assert t[k] == file[pref + 1 + k]; }
  }

  method SortLines(file: array<Line>, base: nat, n: nat, ghost h: seq<int>)
    requires base + n < file.Length && file[base + 1..base + n + 1] == Numbered(h)
    modifies file
    ensures Index(h, file[base + 1..base + n + 1]) && SameOutside(old(file[..]), file[..], base + 1, base + n + 1)
  {
    Sort(file, base, n);
    SortedIndex(h, file[base + 1..base + n + 1]);
  }

  /** From the lines of the middle of both files, the classes and the member list. */
  method Classes(file0: array<Line>, file1: array<Line>, base: nat, n: nat, m: nat, ghost m0: seq<int>,
      ghost m1: seq<int>)
    returns (cls: array<int>, member: array<int>)
    requires file0 != file1 && base + n < file0.Length && base + m + 1 < file1.Length
    requires file0[base + 1..base + n + 1] == Numbered(m0) && file1[base + 1..base + m + 1] == Numbered(m1)
    requires forall y: nat :: y < |m1| ==> m1[y] != 0
    modifies file0, file1
    ensures fresh(cls) && fresh(member) && cls.Length == n + 2
    ensures forall i: nat :: 1 <= i <= n ==> Mates(m1, member[..], m0[i - 1], cls[i])
  {
    hide Numbered, IsMembers, Mates, Sorted, Index, IsClass, Placed;
    SortLines(file0, base, n, m0);
    SortLines(file1, base, m, m1);
    ghost var t0, t1 := file0[base + 1..base + n + 1], file1[base + 1..base + m + 1];
    member := new int[m + 2];
    cls := new int[n + 2];
    EquivLines(file0, file1, base, n, m, member, m0, m1);
    ghost var u0 := file0[base + 1..base + n + 1];
    assert SameSerials(t0, u0);
    UnsortLines(file0, base, n, cls, m0, t0);
    ClassesMean(m0, m1, t0, t1, u0, member[..], cls[..]);
  }

  /** u is t with the class in b of each line for its value. */
  ghost predicate LinesClassed(t: seq<Line>, b: seq<Line>, u: seq<Line>) {
    |u| == |t| && forall k: nat :: k < |t| ==> u[k].serial == t[k].serial && IsClass(b, t[k].value, u[k].value)
  }

  method EquivLines(file0: array<Line>, file1: array<Line>, base: nat, n: nat, m: nat, member: array<int>,
      ghost m0: seq<int>, ghost m1: seq<int>)
    requires file0 != file1 && base + n < file0.Length && base + m + 1 < file1.Length && member.Length == m + 2
    requires Index(m0, file0[base + 1..base + n + 1]) && Index(m1, file1[base + 1..base + m + 1])
    requires forall y: nat :: y < |m1| ==> m1[y] != 0
    modifies file0, file1, member
    ensures LinesClassed(old(file0[base + 1..base + n + 1]), old(file1[base + 1..base + m + 1]),
            file0[base + 1..base + n + 1])
    ensures IsMembers(old(file1[base + 1..base + m + 1]), member[..])
  {
    hide Sorted, IsClass, IsMembers;
    ghost var t0, t1 := file0[base + 1..base + n + 1], file1[base + 1..base + m + 1];
    assert forall k: nat :: base + 1 <= k <= base + m ==> file1[k] == t1[k - base - 1];
    Equiv(file0, base, n, file1, base, m, member);
    assert member[..] == member[..m + 2];
    ghost var u0 := file0[base + 1..base + n + 1];
    forall k: nat | k < n ensures u0[k].serial == t0[k].serial && IsClass(t1, t0[k].value, u0[k].value) {
      assert u0[k] == file0[base + 1 + k];
    }
  }

  ghost predicate SameSerials(t: seq<Line>, u: seq<Line>) {
    |u| == |t| && forall k: nat :: k < |t| ==> u[k].serial == t[k].serial
  }

  /** The entry of cls for each serial number of u is the value there. */
  ghost predicate Placed(u: seq<Line>, cls: seq<int>) {
    forall k: nat :: k < |u| ==> 0 <= u[k].serial < |cls| && cls[u[k].serial] == u[k].value
  }

  method UnsortLines(file: array<Line>, base: nat, n: nat, cls: array<int>, ghost h: seq<int>, ghost t: seq<Line>)
    requires base + n < file.Length && cls.Length == n + 2
    requires Index(h, t) && SameSerials(t, file[base + 1..base + n + 1])
    modifies cls
    ensures Placed(file[base + 1..base + n + 1], cls[..])
  {
    hide Sorted;
    ghost var u := file[base + 1..base + n + 1];
    assert forall k: nat :: base + 1 <= k <= base + n ==>
           file[k] == u[k - base - 1] && u[k - base - 1].serial == t[k - base - 1].serial;
    Unsort(file, base, n, cls);
    forall k: nat | k < n ensures 0 <= u[k].serial < cls.Length && cls[u[k].serial] == u[k].value {
      assert u[k] == file[base + 1 + k] && u[k].serial == t[k].serial;
    }
  }

  lemma ClassesMean(m0: seq<int>, m1: seq<int>, t0: seq<Line>, t1: seq<Line>, u0: seq<Line>, mem: seq<int>,
      cls: seq<int>)
    requires Index(m0, t0) && Index(m1, t1) && LinesClassed(t0, t1, u0) && IsMembers(t1, mem) && |cls| > |m0|
    requires Placed(u0, cls)
    ensures forall i: nat :: 1 <= i <= |m0| ==> Mates(m1, mem, m0[i - 1], cls[i])
  {
    hide Index, IsMembers, IsClass, Mates;
    forall i: nat | 1 <= i <= |m0| ensures Mates(m1, mem, m0[i - 1], cls[i]) {
      var k := IndexOf(m0, t0, i);
      ClassMates(m1, t1, mem, m0[i - 1], cls[i]);
    }
  }

  lemma IndexOf(h: seq<int>, t: seq<Line>, i: nat) returns (k: nat)
    requires Index(h, t) && 1 <= i <= |h|
    ensures k < |t| && t[k] == Line(i, h[i - 1])
  {
    var j := i - 1;
    assert Line(j + 1, h[j]) in t;
    k :| k < |t| && t[k] == Line(i, h[i - 1]);
  }

  lemma TopRung(h0: seq<int>, h1: seq<int>, cl: seq<Cand>, ks: seq<int>, i: int)
    requires Ladder(h0, h1, cl, ks, i)
    ensures var k := |ks| - 1; CandsOk(h0, h1, cl) && 0 <= ks[k] < |cl| && |Trail(cl, ks[k])| == k
  {
    assert Rung(cl, ks, |ks| - 1, i);
  }

  /** The matching stage of diffreg: a vector of matches of equal lines, in order; they are as
      many as can be if the search was not cut short. */
  method Match(file0: array<Line>, len0: nat, file1: array<Line>, len1: nat, minimal: bool, root: nat)
    returns (vec: array<int>)
    requires file0 != file1 && len0 + 1 < file0.Length && len1 + 1 < file1.Length && len1 <= INT_MAX
    requires forall i: nat :: 1 <= i <= len1 ==> file1[i].value != 0
    modifies file0, file1
    ensures fresh(vec) && vec.Length == len0 + 2
    ensures Vector(old(Hashes(file0[..], len0)), old(Hashes(file1[..], len1)), vec[..])
    ensures minimal || len1 <= 256 || len1 <= root ==>
              IsLcs(old(Hashes(file0[..], len0)), old(Hashes(file1[..], len1)), Count(vec[..], 0, len0))
  {
    hide Numbered, Ladder, IsLcs, Vector, Unravelled, CandsOk, Mates;
    ghost var h0, h1 := Hashes(file0[..], len0), Hashes(file1[..], len1);
    var pref, suff := Prune(file0, len0, file1, len1);
    var n, m := len0 - pref - suff, len1 - pref - suff;
    ghost var m0, m1 := Middle(h0, pref, suff), Middle(h1, pref, suff);
    var cls, member := Classes(file0, file1, pref, n, m, m0, m1);
    vec := new int[len0 + 2];
    ghost var k, cl, c := Fill(cls[..], member[..], n, minimal, root, vec, len0, len1, pref, suff, m0, m1);
    UnravelledVector(h0, h1, cl, c, pref, suff, vec[..]);
    UnravelledCount(h0, h1, cl, c, pref, suff, vec[..]);
    if minimal || len1 <= 256 || len1 <= root { PrunedLcs(h0, h1, pref, suff, k); }
  }

  /** The candidates for the middle of the files, and the vector they lead to. */
  method Fill(cls: seq<int>, member: seq<int>, n: nat, minimal: bool, root: nat, vec: array<int>,
              len0: nat, len1: nat, pref: nat, suff: nat, ghost m0: seq<int>, ghost m1: seq<int>)
    returns (ghost k: nat, ghost cl: seq<Cand>, ghost c: nat)
    requires n == |m0| == len0 - pref - suff && |cls| > n && |m1| <= INT_MAX && vec.Length == len0 + 2
    requires forall i: nat :: 1 <= i <= n ==> Mates(m1, member, m0[i - 1], cls[i])
    modifies vec
    ensures CandsOk(m0, m1, cl) && c < |cl| && |Trail(cl, c)| == k && Unravelled(cl, c, len0, len1, pref, suff, vec[..])
    ensures minimal || |m1| <= 256 || |m1| <= root ==> IsLcs(m0, m1, k)
  {
    hide Ladder, IsLcs, Unravelled, CandsOk, Mates, Trail;
    var differ := new Differ(n);
    var top := differ.Stone(m0, m1, cls, n, member, minimal, root);
    TopRung(m0, m1, differ.clist, differ.Ks(top), n);
    k, cl, c := top, differ.clist, differ.klist[top];
    differ.Unravel(differ.klist[top], vec, len0, len1, pref, suff, m0, m1);
  }
}
