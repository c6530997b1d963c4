/**
 Compiled programs are sequences of nodes, and every next pointer leads to one of them.
 */
module ReNodes {
  import opened ReSyntax
  import opened ReCode
  import opened ReEmit
  import opened ReMatch

  // ---- Reading a program from front to back ----

  function StrLenAt(c: seq<nat>, p: nat): (n: nat)
    decreases |c| - p
  {
    if p >= |c| || c[p] == 0 then 0 else 1 + StrLenAt(c, p + 1)
  }

  predicate HasString(op: nat) { op == ANYOF || op == ANYBUT || op == EXACTLY }

  /** A node and, if it has one, its string. */
  function NodeLen(c: seq<nat>, p: nat): (n: nat)
    requires p < |c|
    ensures n >= 3
  {
    if HasString(c[p]) then 3 + StrLenAt(c, p + 3) + 1 else 3
  }

  /** The nodes from p on, up to e. */
  function NodesFrom(c: seq<nat>, p: nat, e: nat): seq<nat>
    requires e <= |c|
    decreases e - p
  {
    if p >= e then [] else [p] + NodesFrom(c, p + NodeLen(c, p), e)
  }

  // ---- Where the nodes of each form are ----

  function Layout(x: Re, p: nat): seq<nat> {
    match x
    case Group(_, alts) => [p] + LayoutAlts(alts, p + 3) + [p + 3 + SizeAlts(alts)]
    case Star(y) =>
      if Simple(y) then [p] + Layout(y, p + 3)
      else [p] + Layout(y, p + 3) + [p + 3 + Size(y), p + 6 + Size(y), p + 9 + Size(y)]
    case Plus(y) =>
      if Simple(y) then [p] + Layout(y, p + 3)
      else Layout(y, p) + [p + Size(y), p + 3 + Size(y), p + 6 + Size(y), p + 9 + Size(y)]
    case Opt(y) => [p] + Layout(y, p + 3) + [p + 3 + Size(y), p + 6 + Size(y)]
    case _ => [p]
  }

  function LayoutBody(ps: seq<Re>, p: nat): seq<nat>
    decreases ps
  {
    if ps == [] then [p] else if |ps| == 1 then Layout(ps[0], p)
        else Layout(ps[0], p) + LayoutBody(ps[1..], p + Size(ps[0]))
  }

  function LayoutAlts(bs: seq<Branch>, p: nat): seq<nat> {
    if bs == [] then [] else [p] + LayoutBody(bs[0].ps, p + 3) + LayoutAlts(bs[1..], p + 3 + SizeBody(bs[0].ps))
  }

  // ---- They are what reading finds ----

  lemma OneNode(c: seq<nat>, p: nat, op: nat, off: nat, e: nat)
    requires Has(c, p, Node(op, off)) && !HasString(op) && p < e <= |c|
    ensures NodesFrom(c, p, e) == [p] + NodesFrom(c, p + 3, e)
  {
    NextOf(c, p, op, off);
  }

  lemma {:induction false} StringLen(c: seq<nat>, p: nat, w: seq<nat>)
    requires Has(c, p, w + [0]) && 0 !in w
    ensures StrLenAt(c, p) == |w|
    decreases |w|
  {
    var v := w + [0];
    assert c[p] == c[p..p + |v|][0];
    if w != [] {
      assert v[1..] == w[1..] + [0];
      assert c[p + 1..p + 1 + |v| - 1] == c[p..p + |v|][1..];
      StringLen(c, p + 1, w[1..]);
    }
  }

  lemma StringNode(c: seq<nat>, p: nat, x: Re, k: int, e: nat)
    requires (x.Lit? || x.Class?) && Wf(x) && Has(c, p, Enc(x, k)) && p < e <= |c|
    ensures NodesFrom(c, p, e) == [p] + NodesFrom(c, p + Size(x), e)
  {
    hide Enc, Has, Node, Next, StrLenAt;
    LitParts(c, p, x, k);
    var op := if x.Lit? then EXACTLY else if x.neg then ANYBUT else ANYOF;
    NextOf(c, p, op, Off(Size(x), k));
    StringLen(c, p + 3, if x.Lit? then x.str else x.chars);
  }

  lemma {:induction false} LayoutRead(c: seq<nat>, p: nat, x: Re, k: int, e: nat)
    requires Wf(x) && Has(c, p, Enc(x, k)) && p + Size(x) <= e <= |c|
    ensures NodesFrom(c, p, e) == Layout(x, p) + NodesFrom(c, p + Size(x), e)
    decreases x, 0
  {
    hide Has, Node, Enc, EncAlts, NodesFrom, Wf, Layout;
    WfParts(x);
    match x
    case Group(n, alts) =>
      GroupParts(c, p, n, alts, k);
      LayoutAltsRead(c, p + 3, alts, 0, |alts|, e);
      GroupRead(c, p, n, alts, k, e);
    case Star(y) =>
      if Simple(y) {
        SimpleParts(c, p, x, k);
        LayoutRead(c, p + 3, y, -1, e);
        SimpleRead(c, p, x, k, e);
      } else {
        StarParts(c, p, y, k);
        LayoutRead(c, p + 3, y, 0, e);
        StarRead(c, p, y, k, e);
      }
    case Plus(y) =>
      if Simple(y) {
        SimpleParts(c, p, x, k);
        LayoutRead(c, p + 3, y, -1, e);
        SimpleRead(c, p, x, k, e);
      } else {
        PlusParts(c, p, y, k);
        LayoutRead(c, p, y, 0, e);
        PlusRead(c, p, y, k, e);
      }
    case Opt(y) =>
      OptParts(c, p, y, k);
      LayoutRead(c, p + 3, y, 3, e);
      OptRead(c, p, y, k, e);
    case _ => LeavesRead(c, p, x, k, e);
  }

  lemma LeavesRead(c: seq<nat>, p: nat, x: Re, k: int, e: nat)
    requires Wf(x) && Leaf(x) && Has(c, p, Enc(x, k)) && p + Size(x) <= e <= |c|
    ensures NodesFrom(c, p, e) == Layout(x, p) + NodesFrom(c, p + Size(x), e)
  {
    hide Has, Node, Enc, NodesFrom, Wf;
    if x.Lit? || x.Class? { StringNode(c, p, x, k, e); } else { LeafRead(c, p, x, k, e); }
  }

  lemma GroupRead(c: seq<nat>, p: nat, n: nat, alts: seq<Branch>, k: int, e: nat)
    requires Has(c, p, Enc(Group(n, alts), k)) && p + Size(Group(n, alts)) <= e <= |c|
    requires NodesFrom(c, p + 3, e) == LayoutAlts(alts, p + 3) + NodesFrom(c, p + 3 + SizeAlts(alts), e)
    ensures NodesFrom(c, p, e) == Layout(Group(n, alts), p) + NodesFrom(c, p + Size(Group(n, alts)), e)
  {
    hide Has, Node, Enc, EncAlts, NodesFrom, LayoutAlts, SizeAlts;
    var m := p + 3 + SizeAlts(alts);
    GroupParts(c, p, n, alts, k);
    OneNode(c, p, OPEN + n, 3, e);
    OneNode(c, m, CLOSE + n, Off(3, k), e);
    assert Layout(Group(n, alts), p) == [p] + LayoutAlts(alts, p + 3) + [m];
    hide Layout;
    Around(p, LayoutAlts(alts, p + 3), [m], NodesFrom(c, p, e), NodesFrom(c, p + 3, e), NodesFrom(c, m, e),
           NodesFrom(c, m + 3, e));
  }

  lemma SimpleRead(c: seq<nat>, p: nat, x: Re, k: int, e: nat)
    requires (x.Star? || x.Plus?) && Simple(x.x) && Has(c, p, Enc(x, k)) && p + Size(x) <= e <= |c|
    requires NodesFrom(c, p + 3, e) == Layout(x.x, p + 3) + NodesFrom(c, p + 3 + Size(x.x), e)
    ensures NodesFrom(c, p, e) == Layout(x, p) + NodesFrom(c, p + Size(x), e)
  {
    hide Has, Node, Enc, NodesFrom;
    SimpleParts(c, p, x, k);
    OneNode(c, p, if x.Star? then STAR else PLUS, Off(Size(x), k), e);
    var l, r := Layout(x.x, p + 3), NodesFrom(c, p + Size(x), e);
    assert Layout(x, p) == [p] + l;
    assert [p] + (l + r) == [p] + l + r;
  }

  lemma OptRead(c: seq<nat>, p: nat, y: Re, k: int, e: nat)
    requires Has(c, p, Enc(Opt(y), k)) && p + Size(Opt(y)) <= e <= |c|
    requires NodesFrom(c, p + 3, e) == Layout(y, p + 3) + NodesFrom(c, p + 3 + Size(y), e)
    ensures NodesFrom(c, p, e) == Layout(Opt(y), p) + NodesFrom(c, p + Size(Opt(y)), e)
  {
    hide Has, Node, Enc, NodesFrom;
    var m := p + 3 + Size(y);
    OptParts(c, p, y, k);
    OneNode(c, p, BRANCH, 3 + Size(y), e);
    OneNode(c, m, BRANCH, 3, e);
    OneNode(c, m + 3, NOTHING, Off(3, k), e);
    assert Layout(Opt(y), p) == [p] + Layout(y, p + 3) + [m, m + 3];
    hide Layout, Size;
    TwoMore(m, m + 3, NodesFrom(c, m, e), NodesFrom(c, m + 3, e), NodesFrom(c, m + 6, e));
    Around(p, Layout(y, p + 3), [m, m + 3], NodesFrom(c, p, e), NodesFrom(c, p + 3, e), NodesFrom(c, m, e),
           NodesFrom(c, m + 6, e));
  }

  lemma WfParts(x: Re)
    requires Wf(x)
    ensures (x.Star? || x.Plus? || x.Opt? ==> Wf(x.x)) && (x.Group? ==> WfAlts(x.alts))
  {
  }

  lemma TwoMore(m0: nat, m1: nat, a: seq<nat>, b: seq<nat>, r: seq<nat>)
    requires a == [m0] + b && b == [m1] + r
    ensures a == [m0, m1] + r
  {
  }

  lemma OneBefore(m: nat, l: seq<nat>, a: seq<nat>, b: seq<nat>, r: seq<nat>)
    requires a == [m] + b && b == l + r
    ensures a == [m] + l + r
  {
  }

  lemma Behind(l: seq<nat>, tail: seq<nat>, a: seq<nat>, b: seq<nat>, r: seq<nat>)
    requires a == l + b && b == tail + r
    ensures a == l + tail + r
  {
  }

  lemma Around(p: nat, l: seq<nat>, tail: seq<nat>, a: seq<nat>, b: seq<nat>, c: seq<nat>, r: seq<nat>)
    requires a == [p] + b && b == l + c && c == tail + r
    ensures a == [p] + l + tail + r
  {
  }

  lemma StarRead(c: seq<nat>, p: nat, y: Re, k: int, e: nat)
    requires !Simple(y) && Has(c, p, Enc(Star(y), k)) && p + Size(Star(y)) <= e <= |c|
    requires NodesFrom(c, p + 3, e) == Layout(y, p + 3) + NodesFrom(c, p + 3 + Size(y), e)
    ensures NodesFrom(c, p, e) == Layout(Star(y), p) + NodesFrom(c, p + Size(Star(y)), e)
  {
    hide Has, Node, Enc, NodesFrom;
    var m := p + 3 + Size(y);
    StarParts(c, p, y, k);
    OneNode(c, p, BRANCH, 6 + Size(y), e);
    OneNode(c, m, BACK, 3 + Size(y), e);
    OneNode(c, m + 3, BRANCH, 3, e);
    OneNode(c, m + 6, NOTHING, Off(3, k), e);
    assert Layout(Star(y), p) == [p] + Layout(y, p + 3) + [m, m + 3, m + 6];
    hide Layout, Size;
    TwoMore(m + 3, m + 6, NodesFrom(c, m + 3, e), NodesFrom(c, m + 6, e), NodesFrom(c, m + 9, e));
    OneBefore(m, [m + 3, m + 6], NodesFrom(c, m, e), NodesFrom(c, m + 3, e), NodesFrom(c, m + 9, e));
    assert [m] + [m + 3, m + 6] == [m, m + 3, m + 6];
    Around(p, Layout(y, p + 3), [m, m + 3, m + 6], NodesFrom(c, p, e), NodesFrom(c, p + 3, e), NodesFrom(c, m, e),
           NodesFrom(c, m + 9, e));
  }

  lemma PlusRead(c: seq<nat>, p: nat, y: Re, k: int, e: nat)
    requires !Simple(y) && Has(c, p, Enc(Plus(y), k)) && p + Size(Plus(y)) <= e <= |c|
    requires NodesFrom(c, p, e) == Layout(y, p) + NodesFrom(c, p + Size(y), e)
    ensures NodesFrom(c, p, e) == Layout(Plus(y), p) + NodesFrom(c, p + Size(Plus(y)), e)
  {
    hide Has, Node, Enc, NodesFrom;
    var m := p + Size(y);
    PlusParts(c, p, y, k);
    OneNode(c, m, BRANCH, 6, e);
    OneNode(c, m + 3, BACK, 3 + Size(y), e);
    OneNode(c, m + 6, BRANCH, 3, e);
    OneNode(c, m + 9, NOTHING, Off(3, k), e);
    assert Layout(Plus(y), p) == Layout(y, p) + [m, m + 3, m + 6, m + 9];
    hide Layout, Size;
    TwoMore(m + 6, m + 9, NodesFrom(c, m + 6, e), NodesFrom(c, m + 9, e), NodesFrom(c, m + 12, e));
    OneBefore(m + 3, [m + 6, m + 9], NodesFrom(c, m + 3, e), NodesFrom(c, m + 6, e), NodesFrom(c, m + 12, e));
    OneBefore(m, [m + 3] + [m + 6, m + 9], NodesFrom(c, m, e), NodesFrom(c, m + 3, e), NodesFrom(c, m + 12, e));
    assert [m] + ([m + 3] + [m + 6, m + 9]) == [m, m + 3, m + 6, m + 9];
    Behind(Layout(y, p), [m, m + 3, m + 6, m + 9], NodesFrom(c, p, e), NodesFrom(c, m, e), NodesFrom(c, m + 12, e));
  }

  lemma LeafRead(c: seq<nat>, p: nat, x: Re, k: int, e: nat)
    requires (x.Bol? || x.Eol? || x.AnyChar?) && Has(c, p, Enc(x, k)) && p + 3 <= e <= |c|
    ensures NodesFrom(c, p, e) == [p] + NodesFrom(c, p + 3, e)
  {
    OneNode(c, p, LeafOp(x), Off(3, k), e);
  }

  lemma {:induction false} LayoutBodyRead(c: seq<nat>, p: nat, ps: seq<Re>, k: int, e: nat)
    requires WfPieces(ps) && Has(c, p, EncBody(ps, k)) && p + SizeBody(ps) <= e <= |c|
    ensures NodesFrom(c, p, e) == LayoutBody(ps, p) + NodesFrom(c, p + SizeBody(ps), e)
    decreases ps, 1
  {
    hide Has, Node, Enc, NodesFrom, Layout;
    if ps == [] {
      OneNode(c, p, NOTHING, Off(3, k), e);
    } else if |ps| == 1 {
      assert ps[1..] == [];
      LayoutRead(c, p, ps[0], k, e);
    } else {
      HasParts(c, p, Enc(ps[0], 0), EncPieces(ps[1..], k));
      LayoutRead(c, p, ps[0], 0, e);
      assert SizeBody(ps) == Size(ps[0]) + SizeBody(ps[1..]);
      LayoutBodyRead(c, p + Size(ps[0]), ps[1..], k, e);
    }
  }

  lemma {:induction false} LayoutAltsRead(c: seq<nat>, p: nat, bs: seq<Branch>, t: nat, n: nat, e: nat)
    requires WfAlts(bs) && Has(c, p, EncAlts(bs, 0, t, n)) && p + SizeAlts(bs) <= e <= |c|
    ensures NodesFrom(c, p, e) == LayoutAlts(bs, p) + NodesFrom(c, p + SizeAlts(bs), e)
    decreases bs
  {
    hide Has, Node, EncBody, NodesFrom, LayoutBody, EncAlts;
    if bs != [] {
      BranchParts(c, p, bs, 0, t, n);
      OneNode(c, p, BRANCH, 3 + SizeBody(bs[0].ps), e);
      LayoutBodyRead(c, p + 3, bs[0].ps, if n > 0 then SizeAlts(bs[1..]) + t else -1, e);
      var m := p + 3 + SizeBody(bs[0].ps);
      LayoutAltsRead(c, m, bs[1..], t, if n > 0 then n - 1 else 0, e);
      BranchCat([p], LayoutBody(bs[0].ps, p + 3), LayoutAlts(bs[1..], m), NodesFrom(c, p + SizeAlts(bs), e));
    }
  }

  lemma BranchCat(a: seq<nat>, b: seq<nat>, l: seq<nat>, r: seq<nat>)
    ensures a + (b + (l + r)) == a + b + l + r
  {
  }

  // ---- Next pointers ----

  /** The operand of STAR or PLUS is not linked to anything. */
  ghost predicate Operand(c: seq<nat>, q: nat)
    requires q + 2 < |c|
  {
    Next(c, q) == -1 && q >= 3 && (c[q - 3] == STAR || c[q - 3] == PLUS)
  }

  /** The next pointer of q leads into m. */
  ghost predicate LandsAt(c: seq<nat>, q: nat, m: set<int>) {
    q + 2 < |c| && (Next(c, q) in m || Operand(c, q))
  }

  ghost predicate Lands(c: seq<nat>, l: seq<nat>, m: set<int>) { forall q :: q in l ==> LandsAt(c, q, m) }

  ghost predicate Within(l: seq<nat>, m: set<int>) { forall q :: q in l ==> q in m }

  lemma LandsNode(c: seq<nat>, q: nat, op: nat, off: nat, m: set<int>)
    requires Has(c, q, Node(op, off)) && off > 0 && (if op == BACK then q - off else q + off) in m
    ensures LandsAt(c, q, m)
  {
    NextOf(c, q, op, off);
  }

  lemma LandsCat(c: seq<nat>, a: seq<nat>, b: seq<nat>, m: set<int>)
    ensures Lands(c, a + b, m) <==> Lands(c, a, m) && Lands(c, b, m)
    ensures Within(a + b, m) <==> Within(a, m) && Within(b, m)
  {
    assert forall q :: q in a + b <==> q in a || q in b;
  }

  lemma LandsOne(c: seq<nat>, q: nat, m: set<int>)
    ensures Lands(c, [q], m) <==> LandsAt(c, q, m)
    ensures Within([q], m) <==> q in m
  {
  }

  lemma OperandLands(c: seq<nat>, p: nat, y: Re, m: set<int>)
    requires p >= 3 && Simple(y) && Has(c, p, Enc(y, -1)) && (c[p - 3] == STAR || c[p - 3] == PLUS)
    ensures Lands(c, Layout(y, p), m)
  {
    OpenEnd(c, p, y);
  }

  lemma {:induction false} LandsRe(c: seq<nat>, p: nat, x: Re, k: nat, m: set<int>)
    requires Wf(x) && Has(c, p, Enc(x, k)) && p + Size(x) + k in m && Within(Layout(x, p), m)
    ensures Lands(c, Layout(x, p), m)
    decreases x, 0
  {
    hide Has, Node, Enc, EncAlts, Lands, LandsAt, Within, Next, Wf;
    WfParts(x);
    var n := Size(x);
    match x
    case Group(g, alts) =>
      var e := p + 3 + SizeAlts(alts);
      GroupParts(c, p, g, alts, k);
      LandsThree(c, [p], LayoutAlts(alts, p + 3), [e], m);
      LandsOne(c, p, m);
      LandsOne(c, e, m);
      GroupFirst(x, p, m);
      LandsNode(c, p, OPEN + g, 3, m);
      LandsAlts(c, p + 3, alts, 0, |alts|, m);
      LandsNode(c, e, CLOSE + g, 3 + k, m);
    case Star(y) => if Simple(y) { LandsSimple(c, p, x, k, m); }
        else { StarParts(c, p, y, k); StarIn(p, y, m); LandsRe(c, p + 3, y, 0, m); LandsStar(c, p, y, k, m); }
    case Plus(y) => if Simple(y) { LandsSimple(c, p, x, k, m); }
        else { PlusParts(c, p, y, k); PlusIn(p, y, m); LandsRe(c, p, y, 0, m); LandsPlus(c, p, y, k, m); }
    case Opt(y) =>
      OptParts(c, p, y, k);
      OptIn(p, y, m);
      LandsRe(c, p + 3, y, 3, m);
      LandsOpt(c, p, y, k, m);
    case _ =>
      LeafNode(c, p, x, k);
      LandsNode(c, p, LeafOp(x), n + k, m);
      LandsOne(c, p, m);
  }

  lemma LandsThree(c: seq<nat>, a: seq<nat>, b: seq<nat>, d: seq<nat>, m: set<int>)
    ensures Lands(c, a + b + d, m) <==> Lands(c, a, m) && Lands(c, b, m) && Lands(c, d, m)
    ensures Within(a + b + d, m) <==> Within(a, m) && Within(b, m) && Within(d, m)
  {
    hide Lands, Within;
    LandsCat(c, a + b, d, m);
    LandsCat(c, a, b, m);
  }

  lemma GroupFirst(x: Re, p: nat, m: set<int>)
    requires x.Group? && Wf(x) && Within(Layout(x, p), m)
    ensures p + 3 in m && p in m && p + 3 + SizeAlts(x.alts) in m && Within(LayoutAlts(x.alts, p + 3), m)
  {
    LandsThree([], [p], LayoutAlts(x.alts, p + 3), [p + 3 + SizeAlts(x.alts)], m);
    LandsOne([], p, m);
    LandsOne([], p + 3 + SizeAlts(x.alts), m);
    assert LayoutAlts(x.alts, p + 3)[0] == p + 3;
  }

  lemma LandsSimple(c: seq<nat>, p: nat, x: Re, k: nat, m: set<int>)
    requires (x.Star? || x.Plus?) && Simple(x.x) && Has(c, p, Enc(x, k)) && p + Size(x) + k in m
    ensures Lands(c, Layout(x, p), m)
  {
    hide Has, Node, Enc, Lands, LandsAt, Next;
    var op := if x.Star? then STAR else PLUS;
    SimpleParts(c, p, x, k);
    NextOf(c, p, op, Size(x) + k);
    LandsNode(c, p, op, Size(x) + k, m);
    LandsOne(c, p, m);
    OperandLands(c, p + 3, x.x, m);
    LandsCat(c, [p], Layout(x.x, p + 3), m);
  }

  /** Which nodes of a complex loop are there. */
  lemma StarIn(p: nat, y: Re, m: set<int>)
    requires !Simple(y) && Within(Layout(Star(y), p), m)
    ensures var z := p + 3 + Size(y); p in m && Within(Layout(y, p + 3), m) && z in m && z + 3 in m && z + 6 in m
  {
    var z := p + 3 + Size(y);
    LandsThree([], [p], Layout(y, p + 3), [z, z + 3, z + 6], m);
    LandsOne([], p, m);
    assert z in [z, z + 3, z + 6] && z + 3 in [z, z + 3, z + 6] && z + 6 in [z, z + 3, z + 6];
  }

  lemma LandsStar(c: seq<nat>, p: nat, y: Re, k: nat, m: set<int>)
    requires !Simple(y) && Has(c, p, Enc(Star(y), k)) && p + Size(Star(y)) + k in m && Within(Layout(Star(y), p), m)
    requires Lands(c, Layout(y, p + 3), m)
    ensures Lands(c, Layout(Star(y), p), m)
  {
    hide Has, Node, Enc, LandsAt, Next;
    var z := p + 3 + Size(y);
    StarIn(p, y, m);
    StarParts(c, p, y, k);
    LandsNode(c, p, BRANCH, 6 + Size(y), m);
    LandsNode(c, z, BACK, 3 + Size(y), m);
    LandsNode(c, z + 3, BRANCH, 3, m);
    LandsNode(c, z + 6, NOTHING, 3 + k, m);
    LandsOne(c, p, m);
    assert Lands(c, [z, z + 3, z + 6], m);
    hide Lands, Within;
    LandsThree(c, [p], Layout(y, p + 3), [z, z + 3, z + 6], m);
  }

  lemma PlusIn(p: nat, y: Re, m: set<int>)
    requires !Simple(y) && Wf(Plus(y)) && Within(Layout(Plus(y), p), m)
    ensures var z := p + Size(y); p in m && Within(Layout(y, p), m) && z in m && z + 3 in m && z + 6 in m && z + 9 in m
  {
    var z := p + Size(y);
    var t := [z, z + 3, z + 6, z + 9];
    LandsCat([], Layout(y, p), t, m);
    assert z in t && z + 3 in t && z + 6 in t && z + 9 in t;
    assert Layout(y, p)[0] == p;
  }

  lemma LandsPlus(c: seq<nat>, p: nat, y: Re, k: nat, m: set<int>)
    requires !Simple(y) && Wf(Plus(y)) && Has(c, p, Enc(Plus(y), k))
    requires p + Size(Plus(y)) + k in m && Within(Layout(Plus(y), p), m)
    requires Lands(c, Layout(y, p), m)
    ensures Lands(c, Layout(Plus(y), p), m)
  {
    hide Has, Node, Enc, LandsAt, Next;
    var z := p + Size(y);
    PlusIn(p, y, m);
    PlusParts(c, p, y, k);
    LandsNode(c, z, BRANCH, 6, m);
    LandsNode(c, z + 3, BACK, 3 + Size(y), m);
    LandsNode(c, z + 6, BRANCH, 3, m);
    LandsNode(c, z + 9, NOTHING, 3 + k, m);
    assert Lands(c, [z, z + 3, z + 6, z + 9], m);
    hide Lands, Within;
    LandsCat(c, Layout(y, p), [z, z + 3, z + 6, z + 9], m);
  }

  lemma OptIn(p: nat, y: Re, m: set<int>)
    requires Within(Layout(Opt(y), p), m)
    ensures var z := p + 3 + Size(y); p in m && Within(Layout(y, p + 3), m) && z in m && z + 3 in m
  {
    var z := p + 3 + Size(y);
    LandsThree([], [p], Layout(y, p + 3), [z, z + 3], m);
    LandsOne([], p, m);
    assert z in [z, z + 3] && z + 3 in [z, z + 3];
  }

  lemma LandsOpt(c: seq<nat>, p: nat, y: Re, k: nat, m: set<int>)
    requires Has(c, p, Enc(Opt(y), k)) && p + Size(Opt(y)) + k in m
    requires Within(Layout(Opt(y), p), m) && Lands(c, Layout(y, p + 3), m)
    ensures Lands(c, Layout(Opt(y), p), m)
  {
    hide Has, Node, Enc, LandsAt, Next;
    var z := p + 3 + Size(y);
    OptIn(p, y, m);
    OptParts(c, p, y, k);
    LandsNode(c, p, BRANCH, 3 + Size(y), m);
    LandsNode(c, z, BRANCH, 3, m);
    LandsNode(c, z + 3, NOTHING, 3 + k, m);
    LandsOne(c, p, m);
    assert Lands(c, [z, z + 3], m);
    hide Lands, Within;
    LandsThree(c, [p], Layout(y, p + 3), [z, z + 3], m);
  }

  lemma {:induction false} LandsBody(c: seq<nat>, p: nat, ps: seq<Re>, k: nat, m: set<int>)
    requires WfPieces(ps) && Has(c, p, EncBody(ps, k)) && p + SizeBody(ps) + k in m && Within(LayoutBody(ps, p), m)
    ensures Lands(c, LayoutBody(ps, p), m)
    decreases ps, 1
  {
    hide Has, Node, Enc, Lands, LandsAt, Within, Layout, Next;
    if ps == [] {
      LandsNode(c, p, NOTHING, 3 + k, m);
      LandsOne(c, p, m);
    } else if |ps| == 1 {
      assert ps[1..] == [];
      LandsRe(c, p, ps[0], k, m);
    } else {
      HasParts(c, p, Enc(ps[0], 0), EncPieces(ps[1..], k));
      assert SizeBody(ps) == Size(ps[0]) + SizeBody(ps[1..]);
      LandsCat(c, Layout(ps[0], p), LayoutBody(ps[1..], p + Size(ps[0])), m);
      BodyStarts(ps[1..], p + Size(ps[0]), m);
      LandsRe(c, p, ps[0], 0, m);
      LandsBody(c, p + Size(ps[0]), ps[1..], k, m);
    }
  }

  lemma BodyStarts(ps: seq<Re>, p: nat, m: set<int>)
    requires Within(LayoutBody(ps, p), m) && WfPieces(ps)
    ensures p in m
  {
    LayoutFirst(ps, p);
  }

  lemma LayoutFirst(ps: seq<Re>, p: nat)
    requires WfPieces(ps)
    ensures LayoutBody(ps, p) != [] && LayoutBody(ps, p)[0] == p
  {
    if ps != [] { ReFirst(ps[0], p); }
  }

  lemma ReFirst(x: Re, p: nat)
    requires Wf(x)
    ensures Layout(x, p) != [] && Layout(x, p)[0] == p
  {
    if x.Plus? && !Simple(x.x) { assert Layout(x.x, p)[0] == p; }
  }

  lemma {:induction false} LandsAlts(c: seq<nat>, p: nat, bs: seq<Branch>, t: nat, n: nat, m: set<int>)
    requires WfAlts(bs) && n >= |bs| && Has(c, p, EncAlts(bs, 0, t, n)) && Within(LayoutAlts(bs, p), m)
    requires p + SizeAlts(bs) in m && p + SizeAlts(bs) + t in m
    ensures Lands(c, LayoutAlts(bs, p), m)
    decreases bs
  {
    hide Has, Node, EncBody, Lands, LandsAt, Within, LayoutBody, Next;
    if bs == [] {
      NoneLand(c, m);
    } else {
      var b, q := bs[0], p + 3 + SizeBody(bs[0].ps);
      BranchParts(c, p, bs, 0, t, n);
      LandsThree(c, [p], LayoutBody(b.ps, p + 3), LayoutAlts(bs[1..], q), m);
      assert q in m by { if |bs| > 1 { AltsStart(bs[1..], q, m); } else { assert SizeAlts(bs[1..]) == 0; } }
      LandsNode(c, p, BRANCH, 3 + SizeBody(b.ps), m);
      LandsOne(c, p, m);
      LandsBody(c, p + 3, b.ps, SizeAlts(bs[1..]) + t, m);
      LandsAlts(c, q, bs[1..], t, n - 1, m);
    }
  }

  lemma NoneLand(c: seq<nat>, m: set<int>)
    ensures Lands(c, [], m)
  {
  }

  lemma AltsStart(bs: seq<Branch>, p: nat, m: set<int>)
    requires bs != [] && Within(LayoutAlts(bs, p), m)
    ensures p in m
  {
    assert LayoutAlts(bs, p)[0] == p;
  }

  /** In a compiled program every next pointer leads to the start of a node, except that the last
      node has none, and neither has the operand of a STAR or PLUS node. */
  lemma NextsLand(bs: seq<Branch>, q: nat)
    requires bs != [] && WfAlts(bs) && q in NodesFrom(Program(bs), 1, |Program(bs)|)
    ensures var c := Program(bs);
            && q + 2 < |c|
            && (Next(c, q) in NodesFrom(c, 1, |c|) || Operand(c, q)
               || (q == |c| - 3 && c[q] == END && Next(c, q) == -1))
  {
    var c, e := Program(bs), 1 + SizeAlts(bs);
    hide EncAlts, Node, NodesFrom, Next;
    HasMiddle([MAGIC], EncAlts(bs, 0, 0, |bs|), Node(END, 0));
    HasEnd([MAGIC] + EncAlts(bs, 0, 0, |bs|), Node(END, 0));
    LayoutAltsRead(c, 1, bs, 0, |bs|, |c|);
    OneNode(c, e, END, 0, |c|);
    EndOfNodes(c);
    NextOf(c, e, END, 0);
    hide LayoutAlts;
    var l := NodesFrom(c, 1, |c|);
    assert l == LayoutAlts(bs, 1) + [e];
    var m := Members(l);
    LandsAlts(c, 1, bs, 0, |bs|, m);
  }

  ghost function Members(l: seq<nat>): (m: set<int>)
    ensures forall x :: x in l <==> x in m
  {
    set i | 0 <= i < |l| :: l[i]
  }

  lemma EndOfNodes(c: seq<nat>)
    ensures NodesFrom(c, |c|, |c|) == []
  {
  }
}
