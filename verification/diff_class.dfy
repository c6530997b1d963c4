/**
 Equivalence classes of lines: for each line of the first file, where the serial numbers of
 the lines of the second file with the same hash value are listed.
 */
module DiffClass {
  import opened DiffSort

  function Abs(x: int): int { if x < 0 then -x else x }

  /** j is the first line of b, counted from 1, with value v, or 0 if there is none. */
  ghost predicate IsClass(b: seq<Line>, v: int, j: int) {
    if j == 0 then forall p: nat :: p < |b| ==> b[p].value != v
    else 1 <= j <= |b| && b[j - 1].value == v && forall p: nat :: p < j - 1 ==> b[p].value != v
  }

  /** Entry j of the member list for the sorted lines b; the first of each class is negated. */
  function Member(b: seq<Line>, j: nat): int
    requires 1 <= j <= |b|
  {
    if j == 1 || b[j - 2].value != b[j - 1].value then -b[j - 1].serial else b[j - 1].serial
  }

  ghost predicate IsMembers(b: seq<Line>, c: seq<int>) {
    |c| > |b| + 1 && c[|b| + 1] == -1 && forall j: nat :: 1 <= j <= |b| ==> c[j] == Member(b, j)
  }

  /** Lines 1..i after base have got their classes and the others are as they were. */
  ghost predicate Classed(a0: seq<Line>, a: seq<Line>, base: nat, i: nat, t: seq<Line>) {
    && |a| == |a0| && (forall k: nat :: k < |a| && !(base + 1 <= k < base + i) ==> a[k] == a0[k])
    && forall k: nat :: base + 1 <= k < base + i && k < |a| ==>
       a[k].serial == a0[k].serial && IsClass(t, a0[k].value, a[k].value)
  }

  lemma ClassedNext(a0: seq<Line>, a: seq<Line>, base: nat, i: nat, t: seq<Line>, v: int)
    requires 1 <= i && base + i < |a| && Classed(a0, a, base, i, t) && IsClass(t, a0[base + i].value, v)
    ensures Classed(a0, a[base + i := a[base + i].(value := v)], base, i + 1, t)
  {
  }

  /** The first half of equiv: the value of each line of a becomes its class in b. */
  method FindClasses(a: array<Line>, abase: nat, n: nat, b: array<Line>, bbase: nat, m: nat)
    requires a != b && abase + n < a.Length && bbase + m < b.Length
    requires Sorted(a[abase + 1..abase + n + 1]) && Sorted(b[bbase + 1..bbase + m + 1])
    modifies a
    ensures SameOutside(old(a[..]), a[..], abase + 1, abase + n + 1)
    ensures forall k: nat :: abase + 1 <= k <= abase + n ==>
              a[k].serial == old(a[k].serial) && IsClass(b[bbase + 1..bbase + m + 1], old(a[k].value), a[k].value)
  {
    ghost var s, t := a[abase + 1..abase + n + 1], b[bbase + 1..bbase + m + 1];
    var i, j := 1, 1;
    while i <= n && j <= m
      invariant 1 <= i <= n + 1 && 1 <= j <= m + 1
      invariant Classed(old(a[..]), a[..], abase, i, t)
      invariant forall p: nat, q: nat :: p < j - 1 && i - 1 <= q < n ==> t[p].value < s[q].value
      decreases n - i + m - j
    {
      assert a[abase + i] == s[i - 1] && b[bbase + j] == t[j - 1];
      if a[abase + i].value < b[bbase + j].value {
        ClassAbsent(s, t, i, j);
        ClassedNext(old(a[..]), a[..], abase, i, t, 0);
        a[abase + i] := a[abase + i].(value := 0);
        i := i + 1;
      } else if a[abase + i].value == b[bbase + j].value {
        ClassedNext(old(a[..]), a[..], abase, i, t, j);
        a[abase + i] := a[abase + i].(value := j);
        i := i + 1;
      } else {
        j := j + 1;
      }
    }
    while i <= n
      invariant 1 <= i <= n + 1 && (i <= n ==> j == m + 1)
      invariant Classed(old(a[..]), a[..], abase, i, t)
      invariant forall p: nat, q: nat :: p < j - 1 && i - 1 <= q < n ==> t[p].value < s[q].value
    {
      assert a[abase + i] == s[i - 1];
      ClassedNext(old(a[..]), a[..], abase, i, t, 0);
      a[abase + i] := a[abase + i].(value := 0);
      i := i + 1;
    }
  }

  lemma ClassAbsent(s: seq<Line>, t: seq<Line>, i: nat, j: nat)
    requires Sorted(t) && 1 <= i <= |s| && 1 <= j <= |t| && s[i - 1].value < t[j - 1].value
    requires forall p: nat :: p < j - 1 ==> t[p].value < s[i - 1].value
    ensures IsClass(t, s[i - 1].value, 0)
  {
    forall p: nat | p < |t| ensures t[p].value != s[i - 1].value {
      if p > j - 1 { assert !Less(t[p], t[j - 1]); }
    }
  }

  /** The second half of equiv. Line m + 1 of b is made a sentinel. */
  method ListMembers(b: array<Line>, bbase: nat, m: nat, c: array<int>)
    requires bbase + m + 1 < b.Length && c.Length > m + 1
    requires forall k: nat :: bbase + 1 <= k <= bbase + m ==> b[k].value != 0
    modifies b, c
    ensures SameOutside(old(b[..]), b[..], bbase + m + 1, bbase + m + 2)
    ensures IsMembers(old(b[bbase + 1..bbase + m + 1]), c[..m + 2])
  {
    ghost var t := b[bbase + 1..bbase + m + 1];
    b[bbase + m + 1] := b[bbase + m + 1].(value := 0);
    ghost var u := b[..];
    assert forall k: nat :: bbase + 1 <= k <= bbase + m ==> u[k] == t[k - bbase - 1];
    var j := 1;
    while j <= m
      invariant b[..] == u
      invariant 1 <= j <= m + 1 && (1 < j <= m ==> t[j - 2].value != t[j - 1].value)
      invariant forall i: nat :: 1 <= i < j ==> c[i] == Member(t, i)
    {
      c[j] := -b[bbase + j].serial;
      while b[bbase + j + 1].value == b[bbase + j].value
        invariant b[..] == u
        invariant 1 <= j <= m
        invariant forall i: nat :: 1 <= i <= j ==> c[i] == Member(t, i)
        decreases m - j
      {
        j := j + 1;
        c[j] := b[bbase + j].serial;
      }
      j := j + 1;
    }
    c[j] := -1;
  }

  /** equiv. */
  method Equiv(a: array<Line>, abase: nat, n: nat, b: array<Line>, bbase: nat, m: nat, c: array<int>)
    requires a != b && abase + n < a.Length && bbase + m + 1 < b.Length && c.Length > m + 1
    requires Sorted(a[abase + 1..abase + n + 1]) && Sorted(b[bbase + 1..bbase + m + 1])
    requires forall k: nat :: bbase + 1 <= k <= bbase + m ==> b[k].value != 0
    modifies a, b, c
    ensures SameOutside(old(a[..]), a[..], abase + 1, abase + n + 1)
    ensures forall k: nat :: abase + 1 <= k <= abase + n ==>
              a[k].serial == old(a[k].serial) && IsClass(old(b[bbase + 1..bbase + m + 1]), old(a[k].value), a[k].value)
    ensures SameOutside(old(b[..]), b[..], bbase + m + 1, bbase + m + 2)
    ensures IsMembers(old(b[bbase + 1..bbase + m + 1]), c[..m + 2])
  {
    FindClasses(a, abase, n, b, bbase, m);
    ListMembers(b, bbase, m, c);
  }

  /** unsort: the values of the sorted lines, by serial number. */
  method Unsort(f: array<Line>, base: nat, l: nat, b: array<int>)
    requires base + l < f.Length && b.Length > l
    requires forall k: nat :: base + 1 <= k <= base + l ==> 1 <= f[k].serial <= l
    requires forall p: nat, q: nat :: base + 1 <= p < q <= base + l ==> f[p].serial != f[q].serial
    modifies b
    ensures forall k: nat :: base + 1 <= k <= base + l ==> b[f[k].serial] == f[k].value
  {
    var a := new int[l + 1];
    for i := 1 to l + 1
      invariant forall k: nat :: base + 1 <= k < base + i ==> a[f[k].serial] == f[k].value
    {
      a[f[base + i].serial] := f[base + i].value;
    }
    for i := 1 to l + 1
      invariant forall k: nat :: base + 1 <= k <= base + l ==> a[f[k].serial] == f[k].value
      invariant forall k: nat :: 1 <= k < i ==> b[k] == a[k]
    {
      b[i] := a[i];
    }
  }

  // ---- what the lists mean ----

  /** Entries j..e of the member list are the lines of h with value v, in order. */
  ghost predicate Block(h: seq<int>, mem: seq<int>, v: int, j: nat, e: nat) {
    && 1 <= j < e <= |h| + 1 < |mem| && mem[j] < 0 && mem[e] < 0
    && (forall t: nat :: j < t < e ==> mem[t] > 0)
    && (forall t: nat :: j <= t < e ==> 1 <= Abs(mem[t]) <= |h| && h[Abs(mem[t]) - 1] == v)
    && (forall t: nat, u: nat :: j <= t < u < e ==> Abs(mem[t]) < Abs(mem[u]))
    && (forall y: nat :: 1 <= y <= |h| && h[y - 1] == v ==> Listed(mem, j, e, y))
  }

  ghost predicate Listed(mem: seq<int>, j: nat, e: nat, y: int) {
    exists t: nat :: j <= t < e <= |mem| && Abs(mem[t]) == y
  }

  lemma BlockHas(h: seq<int>, mem: seq<int>, v: int, j: nat, e: nat, y: nat) returns (t: nat)
    requires Block(h, mem, v, j, e) && 1 <= y <= |h| && h[y - 1] == v
    ensures j <= t < e < |mem| && Abs(mem[t]) == y
  {
    assert Listed(mem, j, e, y);
    t :| j <= t < e && Abs(mem[t]) == y;
  }

  /** Class j stands for the lines of h with value v. */
  ghost predicate Mates(h: seq<int>, mem: seq<int>, v: int, j: int) {
    if j == 0 then forall y: nat :: y < |h| ==> h[y] != v
    else j > 0 && exists e: nat :: Block(h, mem, v, j, e)
  }

  ghost function BlockEnd(b: seq<Line>, v: int, j: nat): (e: nat)
    requires 1 <= j <= |b| + 1
    ensures j <= e <= |b| + 1 && (e <= |b| ==> b[e - 1].value != v)
    ensures forall p: nat :: j - 1 <= p < e - 1 ==> b[p].value == v
    decreases |b| - j
  {
    if j <= |b| && b[j - 1].value == v then BlockEnd(b, v, j + 1) else j
  }

  lemma BlockIn(h: seq<int>, b: seq<Line>, v: int, j: nat, y: nat) returns (t: nat)
    requires Index(h, b) && IsClass(b, v, j) && 1 <= j && y < |h| && h[y] == v
    ensures j <= t < BlockEnd(b, v, j) && b[t - 1].serial == y + 1
  {
    var p: nat :| p < |b| && b[p] == Line(y + 1, v);
    t := p + 1;
    var e := BlockEnd(b, v, j);
    if e - 1 <= p { PastEnd(b, v, j, p); }
  }

  lemma PastEnd(b: seq<Line>, v: int, j: nat, p: nat)
    requires Sorted(b) && 1 <= j <= |b| && b[j - 1].value == v && BlockEnd(b, v, j) - 1 <= p < |b|
    ensures b[p].value != v
  {
    var e := BlockEnd(b, v, j);
    assert j < e;
    assert !Less(b[e - 1], b[j - 1]);
    assert e - 1 < p ==> !Less(b[p], b[e - 1]);
  }

  lemma SameClass(h: seq<int>, b: seq<Line>, p: nat, q: nat)
    requires Index(h, b) && p < q < |b| && b[p].value == b[q].value
    ensures b[p].serial < b[q].serial
  {
    assert !Less(b[q], b[p]);
  }

  lemma BlockEntry(h: seq<int>, b: seq<Line>, mem: seq<int>, v: int, j: nat, t: nat)
    requires Index(h, b) && IsMembers(b, mem) && IsClass(b, v, j) && 1 <= j <= t < BlockEnd(b, v, j)
    ensures b[t - 1].value == v && mem[t] == (if t == j then -b[t - 1].serial else b[t - 1].serial)
    ensures Abs(mem[t]) == b[t - 1].serial && 1 <= Abs(mem[t]) <= |h| && h[Abs(mem[t]) - 1] == v
  {
    hide Sorted;
    assert mem[t] == Member(b, t);
    if t > j { assert b[t - 2].value == v; } else if t > 1 { assert b[t - 2].value != v; }
  }

  lemma BlockEnds(h: seq<int>, b: seq<Line>, mem: seq<int>, v: int, j: nat)
    requires Index(h, b) && IsMembers(b, mem) && IsClass(b, v, j) && 1 <= j
    ensures j <= |b| && var e := BlockEnd(b, v, j); j < e <= |h| + 1 < |mem| && mem[e] < 0
  {
    hide Sorted;
    var e := BlockEnd(b, v, j);
    if e <= |b| { assert mem[e] == Member(b, e) && b[e - 2].value == v; }
  }

  lemma ClassBlock(h: seq<int>, b: seq<Line>, mem: seq<int>, v: int, j: nat)
    requires Index(h, b) && IsMembers(b, mem) && IsClass(b, v, j) && 1 <= j
    ensures Block(h, mem, v, j, BlockEnd(b, v, j))
  {
    hide Index, IsMembers, IsClass;
    BlockEnds(h, b, mem, v, j);
    var e := BlockEnd(b, v, j);
    forall t: nat | j <= t < e
      ensures (t == j ==> mem[t] < 0) && (t > j ==> mem[t] > 0) && 1 <= Abs(mem[t]) <= |h| && h[Abs(mem[t]) - 1] == v
    {
      BlockEntry(h, b, mem, v, j, t);
    }
    forall t: nat, u: nat | j <= t < u < e ensures Abs(mem[t]) < Abs(mem[u]) { BlockPair(h, b, mem, v, j, t, u); }
    forall y: nat | 1 <= y <= |h| && h[y - 1] == v ensures Listed(mem, j, e, y) {
      var t := BlockIn(h, b, v, j, y - 1);
      BlockEntry(h, b, mem, v, j, t);
    }
  }

  lemma BlockPair(h: seq<int>, b: seq<Line>, mem: seq<int>, v: int, j: nat, t: nat, u: nat)
    requires Index(h, b) && IsMembers(b, mem) && IsClass(b, v, j) && 1 <= j <= t < u < BlockEnd(b, v, j)
    ensures t < |mem| && u < |mem| && Abs(mem[t]) < Abs(mem[u])
  {
    BlockEntry(h, b, mem, v, j, t);
    BlockEntry(h, b, mem, v, j, u);
    SameClass(h, b, t - 1, u - 1);
  }

  /** The class equiv finds for a value lists the lines with that value. */
  lemma ClassMates(h: seq<int>, b: seq<Line>, mem: seq<int>, v: int, j: int)
    requires Index(h, b) && IsMembers(b, mem) && IsClass(b, v, j)
    ensures Mates(h, mem, v, j)
  {
    if j == 0 {
      forall y: nat | y < |h| ensures h[y] != v {
        var p: nat :| p < |b| && b[p] == Line(y + 1, h[y]);
      }
    } else {
      ClassBlock(h, b, mem, v, j);
    }
  }
}
