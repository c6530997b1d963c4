/**
 The hunks diff prints: what they are for a vector of matches, that they turn the first file
 into the second, and the two loops that print them.
 */
module DiffHunks {
  import opened DiffVector

  /** Lines a..b of the first file become lines c..d of the second; a = b + 1 and c = d + 1
      stand for no lines. */
  datatype Hunk = Hunk(a: int, b: int, c: int, d: int)

  predicate Empty(h: Hunk) { h.a > h.b && h.c > h.d }

  /** A hunk as a script, which has no empty hunks. */
  function One(a: int, b: int, c: int, d: int): seq<Hunk> {
    if Empty(Hunk(a, b, c, d)) then [] else [Hunk(a, b, c, d)]
  }

  /** The first matched line from i on, or m + 1. */
  ghost function NextMatch(v: seq<int>, i: nat, m: nat): (e: nat)
    requires 1 <= i <= m + 1 && m < |v|
    ensures i <= e <= m + 1 && (e <= m ==> v[e] != 0) && forall u: nat :: i <= u < e ==> v[u] == 0
    decreases m + 1 - i
  {
    if i == m + 1 || v[i] != 0 then i else NextMatch(v, i + 1, m)
  }

  /** What is to change in lines i..m of the first file and j + 1..n of the second. */
  ghost function Script(v: seq<int>, i: nat, j: int, m: nat, n: int): seq<Hunk>
    requires 1 <= i <= m + 1 && m < |v|
    decreases m + 1 - i
  {
    var e := NextMatch(v, i, m);
    if e == m + 1 then One(i, m, j + 1, n) else One(i, e - 1, j + 1, v[e] - 1) + Script(v, e + 1, v[e], m, n)
  }

  ghost function Reverse(s: seq<Hunk>): seq<Hunk> {
    if s == [] then [] else Reverse(s[1..]) + [s[0]]
  }

  lemma {:induction false} ReverseSum(s: seq<Hunk>, t: seq<Hunk>)
    ensures Reverse(s + t) == Reverse(t) + Reverse(s)
  {
    if s == [] {
      assert s + t == t;
    } else {
      assert (s + t)[1..] == s[1..] + t;
      ReverseSum(s[1..], t);
    }
  }

  // ---- scripts from the front and from the back ----

  lemma ScriptMatched(v: seq<int>, i: nat, j: int, m: nat, n: int)
    requires 1 <= i <= m < |v| && v[i] != 0
    ensures Script(v, i, j, m, n) == One(i, i - 1, j + 1, v[i] - 1) + Script(v, i + 1, v[i], m, n)
  {
  }

  /** A script ends with what is to change after the last match. */
  lemma {:induction false} ScriptLast(v: seq<int>, i: nat, j: int, m: nat, n: int, e: nat)
    requires 1 <= i <= e <= m < |v| && v[e] != 0 && forall u: nat :: e < u <= m ==> v[u] == 0
    ensures Script(v, i, j, m, n) == Script(v, i, j, e - 1, v[e] - 1) + One(e + 1, m, v[e] + 1, n)
    decreases m + 1 - i
  {
    hide NextMatch, One;
    var f := NextMatch(v, i, m);
    NextUnique(v, i, e - 1, f);
    if f == e {
      NextUnique(v, e + 1, m, m + 1);
    } else {
      ScriptLast(v, f + 1, v[f], m, n, e);
      Assoc(One(i, f - 1, j + 1, v[f] - 1), Script(v, f + 1, v[f], e - 1, v[e] - 1), One(e + 1, m, v[e] + 1, n));
    }
  }

  lemma Assoc(p: seq<Hunk>, q: seq<Hunk>, r: seq<Hunk>)
    ensures (p + q) + r == p + (q + r)
  {
  }

  lemma {:induction false} NextUnique(v: seq<int>, i: nat, m: nat, e: nat)
    requires 1 <= i <= e <= m + 1 && m < |v| && (e <= m ==> v[e] != 0) && forall u: nat :: i <= u < e ==> v[u] == 0
    ensures NextMatch(v, i, m) == e
    decreases m + 1 - i
  {
  }

  // ---- what scripts do ----

  /** Lines from i on of the first file, with the hunks carried out. */
  ghost function Patched<T>(l0: seq<T>, l1: seq<T>, hs: seq<Hunk>, i: int): seq<T> {
    if hs == [] then (if 1 <= i <= |l0| then l0[i - 1..] else [])
    else
      var h := hs[0];
      if 1 <= i <= h.a <= h.b + 1 <= |l0| + 1 && 1 <= h.c <= h.d + 1 <= |l1| + 1
      then l0[i - 1..h.a - 1] + l1[h.c - 1..h.d] + Patched(l0, l1, hs[1..], h.b + 1)
      else []
  }

  /** The first hunk of a script starts at or after its first line. */
  ghost predicate StartsAt(hs: seq<Hunk>, i: int) {
    hs == [] || hs[0].a >= i
  }

  lemma {:induction false} ScriptStarts(v: seq<int>, i: nat, j: int, m: nat, n: int)
    requires 1 <= i <= m + 1 && m < |v|
    ensures StartsAt(Script(v, i, j, m, n), i)
    decreases m + 1 - i
  {
    var e := NextMatch(v, i, m);
    if e <= m { ScriptStarts(v, e + 1, v[e], m, n); }
  }

  lemma PatchedCopy<T>(l0: seq<T>, l1: seq<T>, hs: seq<Hunk>, i: nat)
    requires 1 <= i <= |l0| && StartsAt(hs, i + 1)
    requires Fits(hs, |l0|, |l1|)
    ensures Patched(l0, l1, hs, i) == [l0[i - 1]] + Patched(l0, l1, hs, i + 1)
  {
    if hs == [] {
      assert l0[i - 1..] == [l0[i - 1]] + l0[i..];
    } else {
      var h := hs[0];
      Front(l0, i, h.a - 1, l1[h.c - 1..h.d], Patched(l0, l1, hs[1..], h.b + 1));
    }
  }

  lemma Front<T>(l: seq<T>, i: nat, k: nat, p: seq<T>, q: seq<T>)
    requires 1 <= i <= k <= |l|
    ensures l[i - 1..k] + p + q == [l[i - 1]] + (l[i..k] + p + q)
  {
    assert l[i - 1..k] == [l[i - 1]] + l[i..k];
  }

  /** The hunks of a script fit the files. */
  ghost predicate Fits(hs: seq<Hunk>, m: nat, n: nat) {
    hs != [] ==> hs[0].a <= hs[0].b + 1 <= m + 1 && 1 <= hs[0].c <= hs[0].d + 1 <= n + 1
  }

  ghost predicate Above(v: seq<int>, i: nat, j: int, m: nat) {
    m < |v| && forall u: nat :: i <= u <= m && v[u] != 0 ==> j < v[u]
  }

  lemma {:induction false} ScriptFits(v: seq<int>, i: nat, j: nat, m: nat, n: nat)
    requires 1 <= i <= m + 1 && m < |v| && j <= n && Above(v, i, j, m) && Rises(v, 1, m, n)
    ensures Fits(Script(v, i, j, m, n), m, n)
    decreases m + 1 - i
  {
    var e := NextMatch(v, i, m);
    if e <= m { ScriptFits(v, e + 1, v[e], m, n); }
  }

  ghost predicate Rises(v: seq<int>, i: nat, m: nat, n: nat) {
    && m < |v| && (forall u: nat :: i <= u <= m ==> 0 <= v[u] <= n)
    && forall u: nat, w: nat :: i <= u < w <= m && v[u] != 0 && v[w] != 0 ==> v[u] < v[w]
  }

  /** Carrying out the script for the rest of the files gives the rest of the second file. */
  lemma {:induction false} ScriptPatches<T>(l0: seq<T>, l1: seq<T>, v: seq<int>, i: nat, j: nat)
    requires Vector(l0, l1, v) && 1 <= i <= |l0| + 1 && j <= |l1| && Above(v, i, j, |l0|)
    ensures Patched(l0, l1, Script(v, i, j, |l0|, |l1|), i) == l1[j..]
    decreases |l0| + 1 - i
  {
    hide Vector, Patched, One, StartsAt, Fits;
    var m, n := |l0|, |l1|;
    VectorRises(l0, l1, v);
    var e := NextMatch(v, i, m);
    if e == m + 1 {
      PatchEnd(l0, l1, i, j);
    } else {
      var rest := Script(v, e + 1, v[e], m, n);
      MatchAt(l0, l1, v, e);
      ScriptPatches(l0, l1, v, e + 1, v[e]);
      ScriptStarts(v, e + 1, v[e], m, n);
      ScriptFits(v, e + 1, v[e], m, n);
      PatchedCopy(l0, l1, rest, e);
      PatchOne(l0, l1, rest, i, e - 1, j, v[e] - 1);
      SuffixStep(l1, j, v[e]);
    }
  }

  lemma VectorRises<T>(l0: seq<T>, l1: seq<T>, v: seq<int>)
    requires Vector(l0, l1, v)
    ensures |l0| < |v| && Rises(v, 1, |l0|, |l1|)
  {
  }

  lemma PatchEnd<T>(l0: seq<T>, l1: seq<T>, i: nat, j: nat)
    requires 1 <= i <= |l0| + 1 && j <= |l1|
    ensures Patched(l0, l1, One(i, |l0|, j + 1, |l1|), i) == l1[j..]
  {
    PatchOne(l0, l1, [], i, |l0|, j, |l1|);
    assert Patched(l0, l1, [], |l0| + 1) == [];
    hide Patched, One;
    assert One(i, |l0|, j + 1, |l1|) + [] == One(i, |l0|, j + 1, |l1|);
    assert l1[j..|l1|] + [] == l1[j..];
  }

  lemma SuffixStep<T>(l: seq<T>, j: nat, k: nat)
    requires j < k <= |l|
    ensures l[j..k - 1] + ([l[k - 1]] + l[k..]) == l[j..]
  {
  }

  lemma PatchOne<T>(l0: seq<T>, l1: seq<T>, hs: seq<Hunk>, i: nat, b: nat, j: nat, d: nat)
    requires 1 <= i <= b + 1 <= |l0| + 1 && j <= d <= |l1|
    ensures Patched(l0, l1, One(i, b, j + 1, d) + hs, i) == l1[j..d] + Patched(l0, l1, hs, b + 1)
  {
    if Empty(Hunk(i, b, j + 1, d)) {
      assert One(i, b, j + 1, d) + hs == hs;
    } else {
      assert (One(i, b, j + 1, d) + hs)[1..] == hs;
    }
  }

  /** The hunks of a vector of matches turn the first file into the second. */
  lemma ScriptTurns<T>(l0: seq<T>, l1: seq<T>, v: seq<int>)
    requires Vector(l0, l1, v)
    ensures Patched(l0, l1, Script(v, 1, 0, |l0|, |l1|), 1) == l1
  {
    ScriptPatches(l0, l1, v, 1, 0);
  }

  // ---- the same for an editor that carries out one hunk after the other ----

  ghost function Edited<T>(buf: seq<T>, l1: seq<T>, hs: seq<Hunk>): seq<T>
    decreases |hs|
  {
    if hs == [] then buf
    else if InBounds(buf, l1, hs[0]) then Edited(EditedBy(buf, l1, hs[0]), l1, hs[1..])
    else []
  }

  ghost predicate InBounds<T>(buf: seq<T>, l1: seq<T>, h: Hunk) {
    1 <= h.a <= h.b + 1 <= |buf| + 1 && 1 <= h.c <= h.d + 1 <= |l1| + 1
  }

  /** The buffer after one hunk. */
  ghost function EditedBy<T>(buf: seq<T>, l1: seq<T>, h: Hunk): seq<T>
    requires InBounds(buf, l1, h)
  {
    buf[..h.a - 1] + l1[h.c - 1..h.d] + buf[h.b..]
  }

  lemma EditOne<T>(l0: seq<T>, l1: seq<T>, hs: seq<Hunk>, a: nat, i: nat, c: nat, j: nat)
    requires 1 <= a <= i + 1 <= |l0| + 1 && 1 <= c <= j + 1 <= |l1| + 1
    ensures Edited(l0[..i] + l1[j..], l1, One(a, i, c, j) + hs) == Edited(l0[..a - 1] + l1[c - 1..], l1, hs)
  {
    hide Edited;
    if Empty(Hunk(a, i, c, j)) {
      assert One(a, i, c, j) + hs == hs;
    } else {
      EditFirst(l0[..i] + l1[j..], l1, Hunk(a, i, c, j), hs);
      EditBuffer(l0, l1, a, i, c, j);
    }
  }

  lemma EditFirst<T>(buf: seq<T>, l1: seq<T>, h: Hunk, hs: seq<Hunk>)
    requires 1 <= h.a <= h.b + 1 <= |buf| + 1 && 1 <= h.c <= h.d + 1 <= |l1| + 1
    ensures Edited(buf, l1, [h] + hs) == Edited(EditedBy(buf, l1, h), l1, hs)
    ensures EditedBy(buf, l1, h) == buf[..h.a - 1] + l1[h.c - 1..h.d] + buf[h.b..]
  {
    var all := [h] + hs;
    assert all[0] == h && all[1..] == hs;
    hide EditedBy;
    assert Edited(buf, l1, all) == Edited(EditedBy(buf, l1, all[0]), l1, all[1..]);
  }

  lemma EditBuffer<T>(l0: seq<T>, l1: seq<T>, a: nat, i: nat, c: nat, j: nat)
    requires 1 <= a <= i + 1 <= |l0| + 1 && 1 <= c <= j + 1 <= |l1| + 1
    ensures var buf := l0[..i] + l1[j..]; buf[..a - 1] + l1[c - 1..j] + buf[i..] == l0[..a - 1] + l1[c - 1..]
  {
    var buf := l0[..i] + l1[j..];
    assert buf[..a - 1] == l0[..a - 1] && buf[i..] == l1[j..];
    Joined(l0[..a - 1], l1, c - 1, j);
  }

  lemma Joined<T>(p: seq<T>, l: seq<T>, c: nat, j: nat)
    requires c <= j <= |l|
    ensures p + l[c..j] + l[j..] == p + l[c..]
  {
  }

  lemma MatchedBefore<T>(l0: seq<T>, l1: seq<T>, e: nat, y: nat)
    requires 1 <= e <= |l0| && 1 <= y <= |l1| && l0[e - 1] == l1[y - 1]
    ensures l0[..e] + l1[y..] == l0[..e - 1] + l1[y - 1..]
  {
    assert l0[..e] == l0[..e - 1] + [l0[e - 1]] && l1[y - 1..] == [l1[y - 1]] + l1[y..];
  }

  ghost function LastMatch(v: seq<int>, i: nat): (e: nat)
    requires i < |v|
    ensures e <= i && (e > 0 ==> v[e] != 0) && forall u: nat :: e < u <= i ==> v[u] == 0
  {
    if i == 0 || v[i] != 0 then i else LastMatch(v, i - 1)
  }

  lemma ReverseOne(a: int, b: int, c: int, d: int)
    ensures Reverse(One(a, b, c, d)) == One(a, b, c, d)
  {
  }

  /** Carrying out the script backwards needs no renumbering. */
  lemma {:induction false} ScriptEdits<T>(l0: seq<T>, l1: seq<T>, v: seq<int>, i: nat, j: nat)
    requires Vector(l0, l1, v) && i <= |l0| && j <= |l1| && forall u: nat :: 1 <= u <= i ==> v[u] <= j
    ensures Edited(l0[..i] + l1[j..], l1, Reverse(Script(v, 1, 0, i, j))) == l1
    decreases i
  {
    hide Vector, Edited, One, Reverse;
    VectorRises(l0, l1, v);
    var e := LastMatch(v, i);
    if e == 0 {
      NextUnique(v, 1, i, i + 1);
      ReverseOne(1, i, 1, j);
      EditStart(l0, l1, i, j);
    } else {
      hide Script;
      MatchAt(l0, l1, v, e);
      ScriptLast(v, 1, 0, i, j, e);
      EditStep(l0, l1, Script(v, 1, 0, e - 1, v[e] - 1), e, i, v[e], j);
      ScriptEdits(l0, l1, v, e - 1, v[e] - 1);
    }
  }

  lemma EditStart<T>(l0: seq<T>, l1: seq<T>, i: nat, j: nat)
    requires i <= |l0| && j <= |l1|
    ensures Edited(l0[..i] + l1[j..], l1, One(1, i, 1, j)) == l1
  {
    EditOne(l0, l1, [], 1, i, 1, j);
    assert One(1, i, 1, j) + [] == One(1, i, 1, j) && l0[..0] + l1[0..] == l1;
  }

  lemma EditStep<T>(l0: seq<T>, l1: seq<T>, hs: seq<Hunk>, e: nat, i: nat, y: nat, j: nat)
    requires 1 <= e <= i <= |l0| && 1 <= y <= j <= |l1| && l0[e - 1] == l1[y - 1]
    ensures Edited(l0[..i] + l1[j..], l1, Reverse(hs + One(e + 1, i, y + 1, j))) ==
            Edited(l0[..e - 1] + l1[y - 1..], l1, Reverse(hs))
  {
    hide Edited, One, Reverse;
    ReverseSum(hs, One(e + 1, i, y + 1, j));
    ReverseOne(e + 1, i, y + 1, j);
    EditOne(l0, l1, Reverse(hs), e + 1, i, y + 1, j);
    MatchedBefore(l0, l1, e, y);
  }

  lemma BackwardTurns<T>(l0: seq<T>, l1: seq<T>, v: seq<int>)
    requires Vector(l0, l1, v)
    ensures Edited(l0, l1, Reverse(Script(v, 1, 0, |l0|, |l1|))) == l1
  {
    ScriptEdits(l0, l1, v, |l0|, |l1|);
    assert l0[..|l0|] + l1[|l1|..] == l0;
  }
}
