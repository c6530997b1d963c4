/**
 Common subsequences of two files of lines, and when one is longest. Lines are counted from 1
 and are known by their hash values.
 */
module DiffLcs {
  /** ps matches lines among the first i of a with lines among the first j of b, in order. */
  ghost predicate Common<T(!new)>(a: seq<T>, b: seq<T>, ps: seq<(int, int)>, i: int, j: int)
    decreases |ps|
  {
    ps == [] ||
    var n := |ps| - 1;
    && 1 <= ps[n].0 <= i <= |a| && 1 <= ps[n].1 <= j <= |b| && a[ps[n].0 - 1] == b[ps[n].1 - 1]
    && Common(a, b, ps[..n], ps[n].0 - 1, ps[n].1 - 1)
  }

  ghost predicate Has<T(!new)>(a: seq<T>, b: seq<T>, i: int, j: int, l: int) {
    exists ps: seq<(int, int)> :: |ps| == l && Common(a, b, ps, i, j)
  }

  /** k is the length of a longest common subsequence. */
  ghost predicate IsLcs<T(!new)>(a: seq<T>, b: seq<T>, k: int) {
    && Has(a, b, |a|, |b|, k)
    && forall ps: seq<(int, int)> :: Common(a, b, ps, |a|, |b|) ==> |ps| <= k
  }

  lemma HasNone(a: seq<int>, b: seq<int>, i: int, j: int)
    ensures Has(a, b, i, j, 0)
  {
    var ps: seq<(int, int)> := [];
    assert |ps| == 0 && Common(a, b, ps, i, j);
  }

  lemma HasMore(a: seq<int>, b: seq<int>, i: int, j: int, i': int, j': int, l: int)
    requires Has(a, b, i, j, l) && i <= i' <= |a| && j <= j' <= |b|
    ensures Has(a, b, i', j', l)
  {
    var ps: seq<(int, int)> :| |ps| == l && Common(a, b, ps, i, j);
    assert Common(a, b, ps, i', j');
  }

  lemma HasMatch(a: seq<int>, b: seq<int>, i: int, j: int, l: int)
    requires 1 <= i <= |a| && 1 <= j <= |b| && a[i - 1] == b[j - 1] && Has(a, b, i - 1, j - 1, l)
    ensures Has(a, b, i, j, l + 1)
  {
    var ps: seq<(int, int)> :| |ps| == l && Common(a, b, ps, i - 1, j - 1);
    var qs := ps + [(i, j)];
    assert qs[..l] == ps;
    assert |qs| == l + 1 && Common(a, b, qs, i, j);
  }

  // ---- rows of smallest ends ----

  /** row[l] is the least number of lines of b that hold a common subsequence of length l with
      the first i lines of a. */
  ghost predicate Row(a: seq<int>, b: seq<int>, i: int, row: seq<int>) {
    && |row| > 0 && row[0] == 0
    && forall l: nat, j: nat :: j <= |b| ==> (Has(a, b, i, j, l) <==> l < |row| && row[l] <= j)
  }

  lemma RowFirst(a: seq<int>, b: seq<int>)
    ensures Row(a, b, 0, [0])
  {
    forall l: nat, j: nat | j <= |b| ensures Has(a, b, 0, j, l) <==> l == 0 { if l == 0 { HasNone(a, b, 0, j); } }
  }

  /** Every entry of cur is that of prev, or a match of line i that improves on prev. */
  ghost predicate Sound(a: seq<int>, b: seq<int>, i: int, prev: seq<int>, cur: seq<int>)
    requires 1 <= i <= |a|
  {
    && 0 < |prev| <= |cur| && cur[0] == prev[0]
    && forall l: nat :: 1 <= l < |cur| ==> (l < |prev| && cur[l] == prev[l]) || Improves(a, b, i, prev, l, cur[l])
  }

  /** y is a match of line i that makes a common subsequence of length l end sooner. */
  ghost predicate Improves(a: seq<int>, b: seq<int>, i: int, prev: seq<int>, l: nat, y: int)
    requires 1 <= i <= |a| && 1 <= l
  {
    l <= |prev| && prev[l - 1] < y && 1 <= y <= |b| && a[i - 1] == b[y - 1] && (l < |prev| ==> y <= prev[l])
  }

  /** No match y of line i could still improve on cur. */
  ghost predicate Settled(prev: seq<int>, cur: seq<int>, y: int) {
    forall l: nat :: SettledAt(prev, cur, y, l)
  }

  ghost predicate SettledAt(prev: seq<int>, cur: seq<int>, y: int, l: nat) {
    1 <= l <= |prev| && prev[l - 1] < y ==> l < |cur| && cur[l] <= y
  }

  lemma RowHas(a: seq<int>, b: seq<int>, i: int, prev: seq<int>, cur: seq<int>, l: nat, j: nat)
    requires 1 <= i <= |a| && Row(a, b, i - 1, prev)
    requires Sound(a, b, i, prev, cur) && j <= |b| && l < |cur| && cur[l] <= j
    ensures Has(a, b, i, j, l)
  {
    if l < |prev| && cur[l] == prev[l] {
      HasMore(a, b, i - 1, j, i, j, l);
    } else {
      assert Has(a, b, i - 1, cur[l] - 1, l - 1);
      HasMatch(a, b, i, cur[l], l - 1);
      HasMore(a, b, i, cur[l], i, j, l);
    }
  }

  lemma HasRow(a: seq<int>, b: seq<int>, i: int, prev: seq<int>, cur: seq<int>, l: nat, j: nat)
    requires 1 <= i <= |a| && Row(a, b, i - 1, prev) && Sound(a, b, i, prev, cur) && j <= |b| && Has(a, b, i, j, l)
    requires forall y: nat :: 1 <= y <= |b| && a[i - 1] == b[y - 1] ==> Settled(prev, cur, y)
    ensures l < |cur| && cur[l] <= j
  {
    if l > 0 {
      var ps: seq<(int, int)> :| |ps| == l && Common(a, b, ps, i, j);
      var x, y := ps[l - 1].0, ps[l - 1].1;
      if x < i {
        assert Common(a, b, ps, i - 1, j);
        assert Has(a, b, i - 1, j, l);
      } else {
        assert Common(a, b, ps[..l - 1], i - 1, y - 1) && |ps[..l - 1]| == l - 1;
        assert Has(a, b, i - 1, y - 1, l - 1);
        assert Settled(prev, cur, y) && SettledAt(prev, cur, y, l);
      }
    }
  }

  /** The next row. */
  lemma RowNext(a: seq<int>, b: seq<int>, i: int, prev: seq<int>, cur: seq<int>)
    requires 1 <= i <= |a| && Row(a, b, i - 1, prev) && Sound(a, b, i, prev, cur)
    requires forall y: nat :: 1 <= y <= |b| && a[i - 1] == b[y - 1] ==> Settled(prev, cur, y)
    ensures Row(a, b, i, cur)
  {
    forall l: nat, j: nat | j <= |b| ensures Has(a, b, i, j, l) <==> l < |cur| && cur[l] <= j {
      if Has(a, b, i, j, l) { HasRow(a, b, i, prev, cur, l, j); }
      if l < |cur| && cur[l] <= j { RowHas(a, b, i, prev, cur, l, j); }
    }
  }

  /** A line that matches nothing changes nothing. */
  lemma RowSame(a: seq<int>, b: seq<int>, i: int, row: seq<int>)
    requires 1 <= i <= |a| && Row(a, b, i - 1, row) && forall y: nat :: y < |b| ==> a[i - 1] != b[y]
    ensures Row(a, b, i, row)
  {
    RowNext(a, b, i, row, row);
  }

  /** The last row ends with the length of a longest common subsequence. */
  lemma RowLcs(a: seq<int>, b: seq<int>, row: seq<int>)
    requires Row(a, b, |a|, row) && forall l: nat :: l < |row| ==> row[l] <= |b|
    ensures IsLcs(a, b, |row| - 1)
  {
    forall ps: seq<(int, int)> | Common(a, b, ps, |a|, |b|) ensures |ps| <= |row| - 1 {
      assert Has(a, b, |a|, |b|, |ps|);
    }
  }

  // ---- a common first or last line ----

  ghost function Shifted(ps: seq<(int, int)>, d: int): (r: seq<(int, int)>)
    ensures |r| == |ps|
  {
    seq(|ps|, k requires 0 <= k < |ps| => (ps[k].0 + d, ps[k].1 + d))
  }

  lemma {:induction false} HeadIn(c: int, a: seq<int>, b: seq<int>, ps: seq<(int, int)>, i: int, j: int)
    requires Common(a, b, ps, i, j) && 0 <= i <= |a| && 0 <= j <= |b|
    ensures Common([c] + a, [c] + b, [(1, 1)] + Shifted(ps, 1), i + 1, j + 1)
    decreases |ps|
  {
    var n := |ps| - 1;
    var qs := [(1, 1)] + Shifted(ps, 1);
    if ps == [] {
      assert qs[..0] == [];
    } else {
      HeadIn(c, a, b, ps[..n], ps[n].0 - 1, ps[n].1 - 1);
      assert qs[..n + 1] == [(1, 1)] + Shifted(ps[..n], 1);
    }
  }

  lemma {:induction false} HeadOut(c: int, a: seq<int>, b: seq<int>, ps: seq<(int, int)>, i: int, j: int)
    returns (qs: seq<(int, int)>)
    requires Common([c] + a, [c] + b, ps, i + 1, j + 1) && ps != [] && i <= |a| && j <= |b|
    ensures |qs| == |ps| - 1 && Common(a, b, qs, i, j)
    decreases |ps|
  {
    var n := |ps| - 1;
    if n == 0 {
      qs := [];
    } else {
      var x, y := ps[n].0, ps[n].1;
      LastPair(c, a, b, ps, i, j);
      hide Common;
      var rs := HeadOut(c, a, b, ps[..n], x - 2, y - 2);
      qs := rs + [(x - 1, y - 1)];
      CommonSnoc(a, b, rs, x - 1, y - 1, i, j);
    }
  }

  /** The last of several pairs is not at the head. */
  lemma LastPair(c: int, a: seq<int>, b: seq<int>, ps: seq<(int, int)>, i: int, j: int)
    requires Common([c] + a, [c] + b, ps, i + 1, j + 1) && |ps| >= 2 && i <= |a| && j <= |b|
    ensures var n := |ps| - 1;
            && 2 <= ps[n].0 <= i + 1 && 2 <= ps[n].1 <= j + 1 && a[ps[n].0 - 2] == b[ps[n].1 - 2]
            && Common([c] + a, [c] + b, ps[..n], ps[n].0 - 1, ps[n].1 - 1)
  {
    var n := |ps| - 1;
    var qs := ps[..n];
    assert Common([c] + a, [c] + b, qs, ps[n].0 - 1, ps[n].1 - 1);
    assert qs != [] && 1 <= qs[n - 1].0 <= ps[n].0 - 1 && 1 <= qs[n - 1].1 <= ps[n].1 - 1;
    assert ([c] + a)[ps[n].0 - 1] == a[ps[n].0 - 2] && ([c] + b)[ps[n].1 - 1] == b[ps[n].1 - 2];
  }

  lemma CommonSnoc(a: seq<int>, b: seq<int>, rs: seq<(int, int)>, x: int, y: int, i: int, j: int)
    requires 1 <= x <= i <= |a| && 1 <= y <= j <= |b| && a[x - 1] == b[y - 1] && Common(a, b, rs, x - 1, y - 1)
    ensures Common(a, b, rs + [(x, y)], i, j)
  {
    assert (rs + [(x, y)])[..|rs|] == rs;
  }

  lemma LcsHead(c: int, a: seq<int>, b: seq<int>, k: int)
    requires IsLcs(a, b, k)
    ensures IsLcs([c] + a, [c] + b, k + 1)
  {
    var a', b' := [c] + a, [c] + b;
    var ps: seq<(int, int)> :| |ps| == k && Common(a, b, ps, |a|, |b|);
    HeadIn(c, a, b, ps, |a|, |b|);
    assert |[(1, 1)] + Shifted(ps, 1)| == k + 1;
    assert Has(a', b', |a'|, |b'|, k + 1);
    forall rs: seq<(int, int)> | Common(a', b', rs, |a'|, |b'|) ensures |rs| <= k + 1 {
      if rs != [] { var qs := HeadOut(c, a, b, rs, |a|, |b|); }
    }
  }

  lemma {:induction false} TailSame(c: int, a: seq<int>, b: seq<int>, ps: seq<(int, int)>, i: int, j: int)
    requires i <= |a| && j <= |b|
    ensures Common(a + [c], b + [c], ps, i, j) <==> Common(a, b, ps, i, j)
    decreases |ps|
  {
    if ps != [] {
      var n := |ps| - 1;
      if ps[n].0 <= i && ps[n].1 <= j { TailSame(c, a, b, ps[..n], ps[n].0 - 1, ps[n].1 - 1); }
    }
  }

  lemma LcsTail(c: int, a: seq<int>, b: seq<int>, k: int)
    requires IsLcs(a, b, k)
    ensures IsLcs(a + [c], b + [c], k + 1)
  {
    var a', b' := a + [c], b + [c];
    var ps: seq<(int, int)> :| |ps| == k && Common(a, b, ps, |a|, |b|);
    TailSame(c, a, b, ps, |a|, |b|);
    assert Has(a', b', |a|, |b|, k);
    HasMatch(a', b', |a'|, |b'|, k);
    forall rs: seq<(int, int)> | Common(a', b', rs, |a'|, |b'|) ensures |rs| <= k + 1 {
      if rs != [] {
        var n := |rs| - 1;
        TailSame(c, a, b, rs[..n], rs[n].0 - 1, rs[n].1 - 1);
        assert Common(a, b, rs[..n], |a|, |b|);
      }
    }
  }

  lemma LastOut(u: seq<int>, s: seq<int>)
    requires s != []
    ensures u + s[..|s| - 1] + [s[|s| - 1]] == u + s
  {
  }

  lemma FirstOut(p: seq<int>, a: seq<int>, s: seq<int>)
    requires p != []
    ensures [p[0]] + (p[1..] + a + s) == p + a + s
  {
  }

  /** Dropping a common beginning and a common end loses just their lengths. */
  lemma {:induction false} LcsPruned(p: seq<int>, a: seq<int>, b: seq<int>, s: seq<int>, k: int)
    requires IsLcs(a, b, k)
    ensures IsLcs(p + a + s, p + b + s, |p| + k + |s|)
    decreases |p| + |s|
  {
    hide IsLcs;
    if s != [] {
      var n := |s| - 1;
      LcsPruned(p, a, b, s[..n], k);
      LcsTail(s[n], p + a + s[..n], p + b + s[..n], |p| + k + n);
      LastOut(p + a, s);
      LastOut(p + b, s);
    } else if p != [] {
      LcsPruned(p[1..], a, b, s, k);
      LcsHead(p[0], p[1..] + a + s, p[1..] + b + s, |p| - 1 + k);
      FirstOut(p, a, s);
      FirstOut(p, b, s);
    } else {
      assert p + a + s == a && p + b + s == b;
    }
  }
}
