/**
 Graphs in which every node has at most one successor, such as the graph of which
 process is blocked on which.  g[x] is the successor of x, or -1.
 */
module WaitGraph {

  ghost predicate IsGraph(g: seq<int>) {
    forall x: nat :: x < |g| ==> -1 <= g[x] < |g|
  }

  /** The node n edges after x, or -1 if the path ends before. */
  ghost function Nth(g: seq<int>, x: int, n: nat): (y: int)
    requires IsGraph(g) && -1 <= x < |g|
    ensures -1 <= y < |g|
    decreases n
  {
    if n == 0 || x == -1 then x else Nth(g, g[x], n - 1)
  }

  ghost predicate Reaches(g: seq<int>, x: int, y: nat)
    requires IsGraph(g) && -1 <= x < |g|
  {
    exists n: nat :: Nth(g, x, n) == y
  }

  ghost predicate Acyclic(g: seq<int>) {
    IsGraph(g) && forall x: nat, n: nat :: x < |g| && n > 0 ==> Nth(g, x, n) != x
  }

  /** g' keeps some of the edges of g. */
  ghost predicate Subgraph(g': seq<int>, g: seq<int>) {
    |g'| == |g| && IsGraph(g') && forall x: nat :: x < |g| ==> g'[x] == g[x] || g'[x] == -1
  }

  lemma {:induction false} NthAdd(g: seq<int>, x: int, m: nat, n: nat)
    requires IsGraph(g) && -1 <= x < |g|
    ensures Nth(g, x, m + n) == Nth(g, Nth(g, x, m), n)
    decreases m
  {
    if m > 0 && x != -1 { NthAdd(g, g[x], m - 1, n); }
  }

  lemma {:induction false} SubgraphPath(g': seq<int>, g: seq<int>, x: int, n: nat)
    requires IsGraph(g) && Subgraph(g', g) && -1 <= x < |g| && Nth(g', x, n) != -1
    ensures Nth(g, x, n) == Nth(g', x, n)
    decreases n
  {
    if n > 0 && x != -1 { SubgraphPath(g', g, g'[x], n - 1); }
  }

  lemma SubgraphAcyclic(g': seq<int>, g: seq<int>)
    requires Acyclic(g) && Subgraph(g', g)
    ensures Acyclic(g')
  {
    forall x: nat, n: nat | x < |g| && n > 0 ensures Nth(g', x, n) != x {
      if Nth(g', x, n) == x { SubgraphPath(g', g, x, n); }
    }
  }

  /** With an edge added at c, a path either avoids c or reaches it as before. */
  lemma {:induction false} AddedPath(g: seq<int>, c: nat, d: nat, x: int, n: nat)
    requires IsGraph(g) && c < |g| && d < |g| && -1 <= x < |g|
    requires !Reaches(g, x, c)
    ensures Nth(g[c := d], x, n) == Nth(g, x, n)
    decreases n
  {
    assert Nth(g, x, 0) == x;
    if n > 0 && x != -1 {
      assert x != c;
      if Reaches(g, g[x], c) {
        var k: nat :| Nth(g, g[x], k) == c;
        assert Nth(g, x, k + 1) == c;
      }
      AddedPath(g, c, d, g[x], n - 1);
    }
  }

  /** Blocking c on d keeps the graph acyclic exactly when d does not already lead to c. */
  lemma AddEdge(g: seq<int>, c: nat, d: nat)
    requires Acyclic(g) && c < |g| && d < |g| && g[c] == -1
    ensures Acyclic(g[c := d]) <==> !Reaches(g, d, c)
  {
    var g' := g[c := d];
    if Reaches(g, d, c) {
      var n: nat :| Nth(g, d, n) == c;
      // the path from d to c ends at c, so the new edge closes it
      PathKept(g, c, d, d, n);
      assert Nth(g', c, n + 1) == c;
    } else {
      forall x: nat, n: nat | x < |g| && n > 0 ensures Nth(g', x, n) != x {
        if Nth(g', x, n) == x {
          if Reaches(g, x, c) {
            var m: nat :| Nth(g, x, m) == c;
            PathKept(g, c, d, x, m);
            Rotate(g', x, n, m, c);
            assert Nth(g', c, n) == Nth(g', d, n - 1);
            AddedPath(g, c, d, d, n - 1);
          } else {
            AddedPath(g, c, d, x, n);
          }
        }
      }
    }
  }

  /** A path of g that ends at c (which has no successor in g) is a path of g[c := d]. */
  lemma {:induction false} PathKept(g: seq<int>, c: nat, d: nat, x: int, n: nat)
    requires IsGraph(g) && c < |g| && d < |g| && g[c] == -1 && -1 <= x < |g| && Nth(g, x, n) == c
    ensures Nth(g[c := d], x, n) == c
    decreases n
  {
    if n > 0 && x != -1 {
      PathKept(g, c, d, g[x], n - 1);
    }
  }

  /** A node on a cycle lies on it from wherever it is entered. */
  lemma Rotate(g: seq<int>, x: nat, n: nat, m: nat, c: nat)
    requires IsGraph(g) && x < |g| && n > 0 && Nth(g, x, n) == x && Nth(g, x, m) == c
    ensures Nth(g, c, n) == c
  {
    NthAdd(g, x, m, n);
    NthAdd(g, x, n, m);
  }

  /** In an acyclic graph no path visits a node twice. */
  lemma PathDistinct(g: seq<int>, x: nat, i: nat, j: nat)
    requires Acyclic(g) && x < |g| && i < j && Nth(g, x, j) != -1
    ensures Nth(g, x, i) != Nth(g, x, j)
  {
    NthAdd(g, x, i, j - i);
  }
}
