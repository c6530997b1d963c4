/**
 The k-candidate algorithm of diff: after line i, entry l of klist is a candidate that ends a
 common subsequence of length l as early as possible in the second file.
 */
module DiffStone {
  import opened DiffLcs
  import opened DiffClass

  datatype Cand = Cand(x: int, y: int, pred: int)

  // ---- candidates and their trails ----

  /** Candidate c matches two lines, both later than those of the candidate before it. */
  ghost predicate CandOk(h0: seq<int>, h1: seq<int>, cl: seq<Cand>, c: nat) {
    && c < |cl|
    && if c == 0 then cl[0] == Cand(0, 0, 0)
       else
         && 0 <= cl[c].pred < c && 1 <= cl[c].x <= |h0| && 1 <= cl[c].y <= |h1| && h0[cl[c].x - 1] == h1[cl[c].y - 1]
         && cl[cl[c].pred].x < cl[c].x && cl[cl[c].pred].y < cl[c].y
  }

  ghost predicate CandsOk(h0: seq<int>, h1: seq<int>, cl: seq<Cand>) {
    |cl| > 0 && forall c: nat :: c < |cl| ==> CandOk(h0, h1, cl, c)
  }

  /** The matches that lead up to candidate c. */
  ghost function Trail(cl: seq<Cand>, c: int): seq<(int, int)>
    decreases c
  {
    if c <= 0 || c >= |cl| || !(0 <= cl[c].pred < c) then []
    else Trail(cl, cl[c].pred) + [(cl[c].x, cl[c].y)]
  }

  lemma {:induction false} TrailSame(cl: seq<Cand>, cl': seq<Cand>, c: int)
    requires cl <= cl' && c < |cl|
    ensures Trail(cl', c) == Trail(cl, c)
    decreases c
  {
    if 0 < c && 0 <= cl[c].pred < c { TrailSame(cl, cl', cl[c].pred); }
  }

  /** A trail is a common subsequence. */
  lemma {:induction false} TrailCommon(h0: seq<int>, h1: seq<int>, cl: seq<Cand>, c: nat)
    requires CandsOk(h0, h1, cl) && c < |cl|
    ensures Common(h0, h1, Trail(cl, c), cl[c].x, cl[c].y)
  {
    assert CandOk(h0, h1, cl, c);
    if c > 0 {
      var d := cl[c].pred;
      TrailCommon(h0, h1, cl, d);
      var ps, qs := Trail(cl, d), Trail(cl, c);
      assert qs[..|qs| - 1] == ps;
      assert Common(h0, h1, ps, cl[c].x - 1, cl[c].y - 1);
    }
  }

  // ---- the list of best candidates ----

  ghost predicate Indices(cl: seq<Cand>, ks: seq<int>) {
    forall l: nat :: l < |ks| ==> 0 <= ks[l] < |cl|
  }

  ghost function Ends(cl: seq<Cand>, ks: seq<int>): (r: seq<int>)
    requires Indices(cl, ks)
    ensures |r| == |ks| && forall l: nat :: l < |ks| ==> r[l] == cl[ks[l]].y
  {
    seq(|ks|, l requires 0 <= l < |ks| => cl[ks[l]].y)
  }

  /** ks[l] is a candidate of length l among the first i lines. */
  ghost predicate Rung(cl: seq<Cand>, ks: seq<int>, l: nat, i: int) {
    l < |ks| && 0 <= ks[l] < |cl| && |Trail(cl, ks[l])| == l && cl[ks[l]].x <= i
  }

  ghost predicate Ladder(h0: seq<int>, h1: seq<int>, cl: seq<Cand>, ks: seq<int>, i: int) {
    && CandsOk(h0, h1, cl) && 0 < |ks| <= i + 1 && ks[0] == 0 && Indices(cl, ks)
    && (forall l: nat :: l < |ks| ==> Rung(cl, ks, l, i))
    && (forall l: nat, u: nat :: l < u < |ks| ==> cl[ks[l]].y < cl[ks[u]].y)
  }

  lemma LadderFirst(h0: seq<int>, h1: seq<int>)
    ensures Ladder(h0, h1, [Cand(0, 0, 0)], [0], 0)
  {
  }

  lemma LadderMore(h0: seq<int>, h1: seq<int>, cl: seq<Cand>, ks: seq<int>, i: int)
    requires Ladder(h0, h1, cl, ks, i)
    ensures Ladder(h0, h1, cl, ks, i + 1)
  {
    var j := i + 1;
    forall l: nat | l < |ks| ensures Rung(cl, ks, l, j) { assert Rung(cl, ks, l, i); }
  }

  ghost function Put(ks: seq<int>, l: nat, c: int): seq<int> {
    if l < |ks| then ks[l := c] else ks + [c]
  }

  /** The candidates cl0 and list ks0 before line i, and those now. */
  ghost predicate Working(h0: seq<int>, h1: seq<int>, i: int, cl0: seq<Cand>, ks0: seq<int>, cl: seq<Cand>,
      ks: seq<int>) {
    && 1 <= i <= |h0| && cl0 <= cl
    && Ladder(h0, h1, cl0, ks0, i - 1) && Indices(cl0, ks0) && Ladder(h0, h1, cl, ks, i) && Indices(cl, ks)
    && Sound(h0, h1, i, Ends(cl0, ks0), Ends(cl, ks))
  }

  lemma CandsAdd(h0: seq<int>, h1: seq<int>, cl: seq<Cand>, q: Cand)
    requires CandsOk(h0, h1, cl) && CandOk(h0, h1, cl + [q], |cl|)
    ensures CandsOk(h0, h1, cl + [q])
  {
    forall c: nat | c < |cl| + 1 ensures CandOk(h0, h1, cl + [q], c) {
      if c < |cl| { assert CandOk(h0, h1, cl, c); }
    }
  }

  lemma RungKept(cl: seq<Cand>, cl': seq<Cand>, ks: seq<int>, ks': seq<int>, l: nat, i: int)
    requires cl <= cl' && Rung(cl, ks, l, i) && l < |ks'| && ks'[l] == ks[l]
    ensures Rung(cl', ks', l, i) && cl'[ks'[l]].y == cl[ks[l]].y
  {
    TrailSame(cl, cl', ks[l]);
  }

  /** A new candidate on rung l, reached from the old candidate of rung l - 1. */
  lemma NewRung(h0: seq<int>, h1: seq<int>, i: int, cl0: seq<Cand>, ks0: seq<int>, cl: seq<Cand>, l: nat, y: int)
    requires 1 <= i <= |h0| && cl0 <= cl && Ladder(h0, h1, cl0, ks0, i - 1) && CandsOk(h0, h1, cl) && 1 <= l <= |ks0|
    requires Rung(cl0, ks0, l - 1, i - 1)
    requires cl0[ks0[l - 1]].y < y <= |h1| && 1 <= y && h0[i - 1] == h1[y - 1]
    ensures var cl' := cl + [Cand(i, y, ks0[l - 1])];
            CandsOk(h0, h1, cl') && cl'[|cl|].y == y && cl'[|cl|].x == i && |Trail(cl', |cl|)| == l
  {
    var q := Cand(i, y, ks0[l - 1]);
    var cl' := cl + [q];
    assert CandOk(h0, h1, cl', |cl|);
    CandsAdd(h0, h1, cl, q);
    TrailSame(cl0, cl', ks0[l - 1]);
  }

  lemma LadderPut(h0: seq<int>, h1: seq<int>, cl: seq<Cand>, cl': seq<Cand>, ks: seq<int>, i: int, l: nat)
    requires Ladder(h0, h1, cl, ks, i) && |cl'| == |cl| + 1 && cl <= cl' && CandsOk(h0, h1, cl')
    requires 1 <= l <= |ks| && (l == |ks| ==> |ks| <= i) && cl'[|cl|].x == i && |Trail(cl', |cl|)| == l
    requires cl[ks[l - 1]].y < cl'[|cl|].y && (l < |ks| ==> cl'[|cl|].y < cl[ks[l]].y)
    ensures Ladder(h0, h1, cl', Put(ks, l, |cl|), i)
  {
    hide CandsOk, Trail;
    var ks' := Put(ks, l, |cl|);
    forall u: nat | u < |ks'| ensures Rung(cl', ks', u, i) && (u != l ==> cl'[ks'[u]].y == cl[ks[u]].y) {
      if u != l { RungKept(cl, cl', ks, ks', u, i); }
    }
    forall u: nat, v: nat | u < v < |ks'| ensures cl'[ks'[u]].y < cl'[ks'[v]].y {
      assert Rung(cl', ks', u, i) && Rung(cl', ks', v, i);
      assert u < l - 1 ==> cl[ks[u]].y < cl[ks[l - 1]].y;
      assert l < v ==> cl[ks[l]].y < cl[ks[v]].y;
    }
  }

  lemma EndsPut(cl: seq<Cand>, cl': seq<Cand>, ks: seq<int>, l: nat)
    requires Indices(cl, ks) && |cl'| == |cl| + 1 && cl <= cl' && l <= |ks| && Indices(cl', Put(ks, l, |cl|))
    ensures Ends(cl', Put(ks, l, |cl|)) == Put(Ends(cl, ks), l, cl'[|cl|].y)
  {
  }

  lemma SoundPut(h0: seq<int>, h1: seq<int>, i: int, prev: seq<int>, cur: seq<int>, l: nat, y: int)
    requires 1 <= i <= |h0| && Sound(h0, h1, i, prev, cur)
    requires |cur| == |prev| && 1 <= l && Improves(h0, h1, i, prev, l, y)
    ensures Sound(h0, h1, i, prev, Put(cur, l, y))
  {
  }

  /** Installing a better candidate on rung l. */
  lemma Install(h0: seq<int>, h1: seq<int>, i: int, cl0: seq<Cand>, ks0: seq<int>, cl: seq<Cand>, ks: seq<int>,
      l: nat, y: int)
    requires Working(h0, h1, i, cl0, ks0, cl, ks) && |ks| == |ks0| && 1 <= l <= |ks0|
    requires Improves(h0, h1, i, Ends(cl0, ks0), l, y) && (l < |ks| ==> y < cl[ks[l]].y)
    ensures var cl', ks' := cl + [Cand(i, y, ks0[l - 1])], Put(ks, l, |cl|);
            Working(h0, h1, i, cl0, ks0, cl', ks') && Ends(cl', ks') == Put(Ends(cl, ks), l, y)
  {
    var prev, cur := Ends(cl0, ks0), Ends(cl, ks);
    assert Rung(cl0, ks0, l - 1, i - 1) && cur[l - 1] <= prev[l - 1];
    NewRung(h0, h1, i, cl0, ks0, cl, l, y);
    var cl', ks' := cl + [Cand(i, y, ks0[l - 1])], Put(ks, l, |cl|);
    hide CandsOk, Trail, CandOk;
    assert Indices(cl', ks') by { hide Ladder; }
    LadderPut(h0, h1, cl, cl', ks, i, l);
    EndsPut(cl, cl', ks, l);
    SoundPut(h0, h1, i, prev, cur, l, y);
  }

  // ---- one line of the first file ----

  ghost predicate Rising(s: seq<int>) {
    forall l: nat, u: nat :: l < u < |s| ==> s[l] < s[u]
  }

  /** While a line is tried against y: rungs above oldl are as before the line, oldc is the
      candidate that stood on rung o then, and everything up to o is done with. */
  ghost predicate Trying(prev: seq<int>, cur: seq<int>, ks0: seq<int>, ks: seq<int>, oldl: nat, oldc: int, o: nat,
      y: int) {
    && |prev| == |cur| == |ks0| == |ks| && oldl <= o < |ks0| && oldc == ks0[o] && 1 <= y
    && Rising(prev) && Rising(cur) && prev[0] == cur[0] == 0
    && (forall l: nat :: oldl < l < |ks| ==> ks[l] == ks0[l])
    && (forall l: nat :: oldl < l < |ks| ==> cur[l] == prev[l])
    && cur[oldl] < y && (o > oldl ==> o + 1 < |ks| && cur[o + 1] < y && prev[o] < y)
  }

  lemma EndsRise(h0: seq<int>, h1: seq<int>, cl: seq<Cand>, ks: seq<int>, i: int)
    requires Ladder(h0, h1, cl, ks, i)
    ensures Rising(Ends(cl, ks)) && Ends(cl, ks)[0] == 0
  {
    assert CandOk(h0, h1, cl, 0);
  }

  lemma TryFirst(h0: seq<int>, h1: seq<int>, i: int, cl0: seq<Cand>, ks0: seq<int>, y: int)
    requires 1 <= i <= |h0| && Ladder(h0, h1, cl0, ks0, i - 1) && 1 <= y
    ensures Working(h0, h1, i, cl0, ks0, cl0, ks0) && Trying(Ends(cl0, ks0), Ends(cl0, ks0), ks0, ks0, 0, ks0[0], 0, y)
  {
    LadderMore(h0, h1, cl0, ks0, i - 1);
    EndsRise(h0, h1, cl0, ks0, i - 1);
  }

  /** If y is not past the end that oldc stood for, it can be skipped. */
  lemma SkipSettled(prev: seq<int>, cur: seq<int>, ks0: seq<int>, ks: seq<int>, oldl: nat, oldc: int, o: nat, y: int)
    requires Trying(prev, cur, ks0, ks, oldl, oldc, o, y) && y <= prev[o]
    ensures Settled(prev, cur, y)
  {
    forall u: nat ensures SettledAt(prev, cur, y, u) {}
  }

  /** The rung l found for y is above oldl, and the candidate to come from is the old one of
      the rung below it. */
  lemma Found(prev: seq<int>, cur: seq<int>, ks0: seq<int>, ks: seq<int>, oldl: nat, oldc: int, o: nat, y: int, l: nat)
    requires Trying(prev, cur, ks0, ks, oldl, oldc, o, y) && prev[o] < y
    requires 1 <= l <= |ks| && cur[l - 1] < y && (l < |ks| ==> y <= cur[l])
    ensures oldl < l && prev[l - 1] < y && (if l != oldl + 1 then ks[l - 1] else oldc) == ks0[l - 1]
    ensures o > oldl ==> l > o + 1
  {
    Above(cur, oldl, l, y);
    if o > oldl { Above(cur, o + 1, l, y); }
  }

  lemma Above(cur: seq<int>, u: nat, l: nat, y: int)
    requires u < |cur| && cur[u] < y && l <= |cur| && (l < |cur| ==> y <= cur[l]) && Rising(cur)
    ensures u < l
  {
  }

  /** After the match y was there already on rung l. */
  lemma TrySame(prev: seq<int>, cur: seq<int>, ks0: seq<int>, ks: seq<int>, oldl: nat, oldc: int, o: nat, y: int,
      l: nat, z: int)
    requires Trying(prev, cur, ks0, ks, oldl, oldc, o, y) && prev[o] < y && y < z
    requires 1 <= l < |ks| && cur[l - 1] < y == cur[l]
    ensures Settled(prev, cur, y)
    ensures Trying(prev, cur, ks0, ks, oldl, if l != oldl + 1 then ks[l - 1] else oldc, l - 1, z)
  {
    Found(prev, cur, ks0, ks, oldl, oldc, o, y, l);
    NowSettled(prev, cur, l, y);
  }

  /** After y was put on rung l in the place of candidate tc. */
  lemma TryNext(prev: seq<int>, cur: seq<int>, ks0: seq<int>, ks: seq<int>, oldl: nat, oldc: int, o: nat, y: int,
      l: nat, c: int, z: int)
    requires Trying(prev, cur, ks0, ks, oldl, oldc, o, y) && prev[o] < y && y < z
    requires 1 <= l < |ks| && cur[l - 1] < y < cur[l]
    ensures Settled(prev, Put(cur, l, y), y)
    ensures Trying(prev, Put(cur, l, y), ks0, Put(ks, l, c), l, ks[l], l, z)
  {
    Found(prev, cur, ks0, ks, oldl, oldc, o, y, l);
    assert Rising(Put(cur, l, y));
    NowSettled(prev, Put(cur, l, y), l, y);
  }

  /** Once the end of rung l is y, and it was at least y before, y is done with. */
  lemma NowSettled(prev: seq<int>, cur: seq<int>, l: nat, y: int)
    requires 1 <= l < |cur| && cur[l] == y && (l < |prev| ==> y <= prev[l])
    requires Rising(prev) && Rising(cur)
    ensures Settled(prev, cur, y)
  {
    forall u: nat ensures SettledAt(prev, cur, y, u) {}
  }

  lemma StillSettled(prev: seq<int>, cur: seq<int>, l: nat, y: int, z: int)
    requires Settled(prev, cur, z) && l <= |cur| && (l < |cur| ==> y <= cur[l])
    ensures Settled(prev, Put(cur, l, y), z)
  {
    forall u: nat ensures SettledAt(prev, Put(cur, l, y), z, u) { assert SettledAt(prev, cur, z, u); }
  }

  ghost predicate AllSettled(h0: seq<int>, h1: seq<int>, i: int, prev: seq<int>, cur: seq<int>)
    requires 1 <= i <= |h0|
  {
    forall y: nat :: 1 <= y <= |h1| && h0[i - 1] == h1[y - 1] ==> Settled(prev, cur, y)
  }

  ghost predicate SettledTo(prev: seq<int>, cur: seq<int>, mem: seq<int>, j0: nat, j: nat)
  {
    j <= |mem| && forall t: nat :: j0 <= t < j ==> Settled(prev, cur, Abs(mem[t]))
  }

  lemma SettledAll(h0: seq<int>, h1: seq<int>, i: int, prev: seq<int>, cur: seq<int>, mem: seq<int>, j0: nat, e: nat)
    requires 1 <= i <= |h0| && Block(h1, mem, h0[i - 1], j0, e) && SettledTo(prev, cur, mem, j0, e)
    ensures AllSettled(h0, h1, i, prev, cur)
  {
    hide Settled, Block;
    forall y: nat | 1 <= y <= |h1| && h0[i - 1] == h1[y - 1] ensures Settled(prev, cur, y) {
      var t := BlockHas(h1, mem, h0[i - 1], j0, e, y);
    }
  }

  /** After a new longest subsequence ends at y, later matches of the line can wait. */
  lemma GrownSettled(prev: seq<int>, cur: seq<int>, y: int, z: int)
    requires |cur| == |prev| + 1 && cur[|prev|] == y <= z
    requires Rising(cur)
    ensures Settled(prev, cur, z)
  {
  }

  lemma TryLater(prev: seq<int>, cur: seq<int>, ks0: seq<int>, ks: seq<int>, oldl: nat, oldc: int, o: nat, y: int,
      z: int)
    requires Trying(prev, cur, ks0, ks, oldl, oldc, o, y) && y <= z
    ensures Trying(prev, cur, ks0, ks, oldl, oldc, o, z)
  {
  }

  lemma SettledNext(prev: seq<int>, cur: seq<int>, cur': seq<int>, mem: seq<int>, j0: nat, j: nat, l: nat, y: int)
    requires SettledTo(prev, cur, mem, j0, j) && j < |mem| && y == Abs(mem[j]) && Settled(prev, cur', y)
    requires cur' == cur || (l <= |cur| && cur' == Put(cur, l, y) && (l < |cur| ==> y <= cur[l]))
    ensures SettledTo(prev, cur', mem, j0, j + 1)
  {
    hide Settled, Put;
    if cur' != cur {
      forall t: nat | j0 <= t < j ensures Settled(prev, cur', Abs(mem[t])) {
        StillSettled(prev, cur, l, y, Abs(mem[t]));
      }
    }
  }

  /** When y ends a longer subsequence than before, all matches of the line are done with. */
  lemma SettledGrown(h0: seq<int>, h1: seq<int>, i: int, prev: seq<int>, cur: seq<int>, mem: seq<int>, j0: nat,
      e: nat, j: nat, y: int)
    requires 1 <= i <= |h0| && Block(h1, mem, h0[i - 1], j0, e) && SettledTo(prev, cur, mem, j0, j)
    requires j0 <= j < e && y == Abs(mem[j]) && |cur| == |prev| && Rising(Put(cur, |cur|, y))
    ensures AllSettled(h0, h1, i, prev, Put(cur, |cur|, y))
  {
    hide Settled, Rising;
    var cur' := Put(cur, |cur|, y);
    forall t: nat | j0 <= t < e ensures Settled(prev, cur', Abs(mem[t])) {
      if t < j { StillSettled(prev, cur, |cur|, y, Abs(mem[t])); } else { GrownSettled(prev, cur', y, Abs(mem[t])); }
    }
    SettledAll(h0, h1, i, prev, cur', mem, j0, e);
  }
}
