/**
 The shellsort of diff: the lines of a file, by hash value and then by serial number.
 */
module DiffSort {
  datatype Line = Line(serial: int, value: int)

  predicate Less(u: Line, v: Line) {
    u.value < v.value || (u.value == v.value && u.serial < v.serial)
  }

  ghost predicate Sorted(s: seq<Line>) {
    forall p: nat, q: nat :: p < q < |s| ==> !Less(s[q], s[p])
  }

  method Swap(a: array<Line>, i: nat, j: nat)
    requires i < a.Length && j < a.Length
    modifies a
    ensures a[..] == old(a[..])[i := old(a[j])][j := old(a[i])]
    ensures multiset(a[..]) == old(multiset(a[..]))
  {
    a[i], a[j] := a[j], a[i];
  }

  ghost predicate SameOutside(a: seq<Line>, b: seq<Line>, lo: nat, hi: nat) {
    |a| == |b| && forall k: nat :: k < |a| && !(lo <= k < hi) ==> b[k] == a[k]
  }

  /** Lines 1..j from base are in order. */
  ghost predicate InOrder(a: seq<Line>, base: nat, j: nat)
    requires base + j < |a|
  {
    forall p: nat, q: nat :: base + 1 <= p < q <= base + j ==> !Less(a[q], a[p])
  }

  /** One element sinks to its place along a chain of gap m. */
  method Sink(a: array<Line>, base: nat, n: nat, m: nat, j: nat)
    requires base + n < a.Length && 1 <= m && 1 <= j && j + m <= n && (m == 1 ==> InOrder(a[..], base, j))
    modifies a
    ensures multiset(a[..]) == old(multiset(a[..])) && SameOutside(old(a[..]), a[..], base + 1, base + n + 1)
    ensures m == 1 ==> InOrder(a[..], base, j + 1)
  {
    var i: int := j;
    while i > 0 && !Less(a[base + i], a[base + i + m])
      invariant i <= j && multiset(a[..]) == old(multiset(a[..]))
      invariant SameOutside(old(a[..]), a[..], base + 1, base + n + 1)
      invariant m == 1 ==> 0 <= i
      invariant m == 1 ==>
                forall p: nat, q: nat :: base + 1 <= p < q <= base + j + 1 && q != base + i + 1 ==> !Less(a[q], a[p])
    {
      Swap(a, base + i, base + i + m);
      i := i - m;
    }
  }

  /** One pass over all chains of gap m; the pass of gap 1 leaves the lines in order. */
  method Pass(a: array<Line>, base: nat, n: nat, m: nat)
    requires base + n < a.Length && 1 <= m
    modifies a
    ensures multiset(a[..]) == old(multiset(a[..])) && SameOutside(old(a[..]), a[..], base + 1, base + n + 1)
    ensures m == 1 ==> InOrder(a[..], base, n)
  {
    var k := n - m;
    var j := 1;
    while j <= k
      invariant 1 <= j && (j <= k + 1 || j == 1)
      invariant multiset(a[..]) == old(multiset(a[..])) && SameOutside(old(a[..]), a[..], base + 1, base + n + 1)
      invariant m == 1 && 1 <= n ==> j <= n && InOrder(a[..], base, j)
    {
      Sink(a, base, n, m, j);
      j := j + 1;
    }
  }

  /** sort: the n lines after base end up in order, and are the same lines. */
  method Sort(a: array<Line>, base: nat, n: nat)
    requires base + n < a.Length
    modifies a
    ensures SameOutside(old(a[..]), a[..], base + 1, base + n + 1)
    ensures multiset(a[base + 1..base + n + 1]) == old(multiset(a[base + 1..base + n + 1]))
    ensures Sorted(a[base + 1..base + n + 1])
  {
    if n == 0 { return; }
    var j, m := 1, 0;
    while j <= n
      invariant 1 <= j && (j == 1 ==> m == 0) && (j > 1 ==> m == j - 1 && j <= 2 * n)
      decreases 2 * n - j
    {
      m := 2 * j - 1;
      j := j * 2;
    }
    m := m / 2;
    while m != 0
      invariant 0 <= m && (m == 0 ==> InOrder(a[..], base, n))
      invariant multiset(a[..]) == old(multiset(a[..])) && SameOutside(old(a[..]), a[..], base + 1, base + n + 1)
    {
      Pass(a, base, n, m);
      m := m / 2;
    }
    SegmentSame(old(a[..]), a[..], base + 1, base + n + 1);
    assert Sorted(a[base + 1..base + n + 1]) by { OrderSorted(a[..], base, n); }
  }

  lemma OrderSorted(a: seq<Line>, base: nat, n: nat)
    requires base + n < |a| && InOrder(a, base, n)
    ensures Sorted(a[base + 1..base + n + 1])
  {
    var s := a[base + 1..base + n + 1];
    forall p: nat, q: nat | p < q < |s| ensures !Less(s[q], s[p]) {
      assert s[q] == a[base + 1 + q] && s[p] == a[base + 1 + p];
    }
  }

  lemma SegmentSame(a: seq<Line>, b: seq<Line>, lo: nat, hi: nat)
    requires multiset(a) == multiset(b) && lo <= hi <= |a| && SameOutside(a, b, lo, hi)
    ensures multiset(a[lo..hi]) == multiset(b[lo..hi])
  {
    assert a[..lo] == b[..lo] && a[hi..] == b[hi..];
    Parts(a, lo, hi);
    Parts(b, lo, hi);
    Cancel(multiset(a[..lo]), multiset(a[lo..hi]), multiset(b[lo..hi]), multiset(a[hi..]));
  }

  lemma Cancel(x: multiset<Line>, u: multiset<Line>, v: multiset<Line>, y: multiset<Line>)
    requires x + u + y == x + v + y
    ensures u == v
  {
    forall e: Line ensures u[e] == v[e] { assert (x + u + y)[e] == (x + v + y)[e]; }
  }

  lemma Parts(a: seq<Line>, lo: nat, hi: nat)
    requires lo <= hi <= |a|
    ensures multiset(a) == multiset(a[..lo]) + multiset(a[lo..hi]) + multiset(a[hi..])
  {
    assert a == a[..lo] + a[lo..hi] + a[hi..];
  }

  // ---- what sorting numbered lines gives ----

  /** The lines of a file with their serial numbers, counted from 1. */
  function Numbered(h: seq<int>): (s: seq<Line>)
    ensures |s| == |h|
  {
    seq(|h|, i requires 0 <= i < |h| => Line(i + 1, h[i]))
  }

  /** t holds each line of h once, and in order. */
  ghost predicate Index(h: seq<int>, t: seq<Line>) {
    && |t| == |h| && Sorted(t)
    && (forall p: nat :: p < |t| ==> 1 <= t[p].serial <= |h| && t[p].value == h[t[p].serial - 1])
    && (forall p: nat, q: nat :: p < q < |t| ==> t[p].serial != t[q].serial)
    && (forall i: nat :: i < |h| ==> Line(i + 1, h[i]) in t)
  }

  lemma {:induction false} CountOne(s: seq<Line>, x: Line)
    requires forall p: nat, q: nat :: p < q < |s| ==> s[p] != s[q]
    ensures multiset(s)[x] <= 1
  {
    if s != [] {
      var n := |s| - 1;
      assert s == s[..n] + [s[n]];
      CountOne(s[..n], x);
      if s[n] == x { assert x !in s[..n]; }
    }
  }

  lemma TwoCount(s: seq<Line>, p: nat, q: nat)
    requires p < q < |s| && s[p] == s[q]
    ensures multiset(s)[s[p]] >= 2
  {
    assert s == s[..p] + [s[p]] + s[p + 1..q] + [s[q]] + s[q + 1..];
  }

  lemma SortedIndex(h: seq<int>, t: seq<Line>)
    requires Sorted(t) && multiset(t) == multiset(Numbered(h))
    ensures Index(h, t)
  {
    var s := Numbered(h);
    assert |t| == |multiset(t)| && |s| == |multiset(s)|;
    forall p: nat | p < |t| ensures 1 <= t[p].serial <= |h| && t[p].value == h[t[p].serial - 1] {
      assert t[p] in multiset(t);
      assert t[p] in s;
    }
    forall p: nat, q: nat | p < q < |t| ensures t[p].serial != t[q].serial {
      if t[p].serial == t[q].serial {
        TwoCount(t, p, q);
        CountOne(s, t[p]);
      }
    }
    forall i: nat | i < |h| ensures Line(i + 1, h[i]) in t {
      assert s[i] in multiset(s);
    }
  }
}
