/**
 The backtracking matcher: from any node it finds out exactly whether what is left of the
 expression can be matched, and it always ends.
 */
module ReMatch {
  import opened ReSyntax
  import opened ReCode
  import opened ReMeaning

  /** Matched by a node on its own. */
  predicate Leaf(x: Re) { x.Bol? || x.Eol? || x.AnyChar? || x.Lit? || x.Class? }

  predicate SimpleLoop(x: Re) { (x.Star? || x.Plus?) && Simple(x.x) }

  predicate PlusFirst(k: Kont) { k.Pieces? && k.ps != [] && k.ps[0].Plus? && !Simple(k.ps[0].x) }

  predicate Branching(k: Kont) {
    || k.Alts? || k.Loop?
    || (k.Pieces? && k.ps != [] && (k.ps[0].Opt? || (k.ps[0].Star? && !Simple(k.ps[0].x))))
  }

  function LeafOp(x: Re): nat
    requires Leaf(x)
  {
    match x
    case Bol => BOL
    case Eol => EOL
    case AnyChar => ANY
    case Lit(_) => EXACTLY
    case Class(neg, _) => if neg then ANYBUT else ANYOF
  }

  /** The opcode of the node at which k starts. */
  function FirstOp(k: Kont): nat
    requires k.Pieces? ==> k.ps != [] && !PlusFirst(k)
  {
    match k
    case Done(_) => END
    case Pieces(ps, _, _) =>
      if Leaf(ps[0]) then LeafOp(ps[0])
      else if ps[0].Group? then OPEN + ps[0].n
      else if SimpleLoop(ps[0]) then (if ps[0].Star? then STAR else PLUS)
      else BRANCH
    case Alts(_, _, _) => BRANCH
    case Close(n, _, _) => CLOSE + n
    case Empty(_, _) => NOTHING
    case Back(_, _, _, _) => BACK
    case Loop(_, _, _, _) => BRANCH
  }

  /** Where k goes on and what is left then, for nodes that leave no choice. */
  ghost predicate Onward(k: Kont) {
    k.Close? || k.Empty? || k.Back?
        || (k.Pieces? && k.ps != [] && (Leaf(k.ps[0]) || k.ps[0].Group? || SimpleLoop(k.ps[0])))
  }

  ghost function After(k: Kont): Kont
    requires Onward(k)
  {
    match k
    case Pieces(ps, d, k') =>
      if ps[0].Group? then Alts(ps[0].alts, 0, Close(ps[0].n, Dist(ps, d), Rest(ps, d, k'))) else Rest(ps, d, k')
    case Back(x, _, d, k') => Pieces([x], d, k')
    case Close(_, _, k') => k'
    case Empty(_, k') => k'
  }

  // ---- What the bytes at a node say ----

  lemma LeafNode(c: seq<nat>, p: nat, x: Re, d: nat)
    requires Leaf(x) && Has(c, p, Enc(x, d))
    ensures Has(c, p, Node(LeafOp(x), Size(x) + d))
    ensures x.Lit? ==> Has(c, p + 3, x.str + [0])
    ensures x.Class? ==> Has(c, p + 3, x.chars + [0])
  {
    hide Has, Node;
    if x.Lit? || x.Class? { LitParts(c, p, x, d); }
  }

  lemma OnwardPieces(c: seq<nat>, p: nat, k: Kont)
    requires k.Pieces? && KWf(k) && Loc(c, p, k) && Onward(k)
    ensures exists off: nat :: off > 0 && Has(c, p, Node(FirstOp(k), off)) && Loc(c, p + off, After(k))
  {
    hide Has, Node, Enc, Loc;
    var x, dist, r := k.ps[0], Dist(k.ps, k.d), Rest(k.ps, k.d, k.k);
    FirstLoc(c, p, k.ps, k.d, k.k);
    if x.Group? {
      GroupParts(c, p, x.n, x.alts, dist);
      GroupLoc(c, p + 3, x.n, x.alts, dist, r);
      assert Has(c, p, Node(FirstOp(k), 3)) && Loc(c, p + 3, After(k));
    } else if SimpleLoop(x) {
      SimpleParts(c, p, x, dist);
      assert Has(c, p, Node(FirstOp(k), Size(x) + dist)) && Loc(c, p + (Size(x) + dist), After(k));
    } else {
      LeafNode(c, p, x, dist);
      assert Has(c, p, Node(FirstOp(k), Size(x) + dist)) && Loc(c, p + (Size(x) + dist), After(k));
    }
  }

  lemma GroupLoc(c: seq<nat>, p: nat, n: nat, alts: seq<Branch>, dist: nat, r: Kont)
    requires Has(c, p, EncAlts(alts, 0, 0, |alts|)) && Has(c, p + SizeAlts(alts), Node(CLOSE + n, 3 + dist))
    requires Loc(c, p + SizeAlts(alts) + 3 + dist, r)
    ensures Loc(c, p, Alts(alts, 0, Close(n, dist, r)))
  {
    hide Has, Node, EncAlts;
  }

  lemma BackNode(c: seq<nat>, p: nat, k: Kont)
    requires k.Back? && KWf(k) && Loc(c, p, k)
    ensures p >= 3 + Size(k.x.x) && Has(c, p, Node(BACK, 3 + Size(k.x.x))) && Loc(c, p - 3 - Size(k.x.x), After(k))
  {
    hide Has, Node, Enc;
    var y, lo := k.x.x, p - 3 - Size(k.x.x);
    if k.x.Star? { StarParts(c, lo, y, k.d); } else { PlusParts(c, lo, y, k.d); }
    OneLoc(c, lo, k.x, k.d, k.k);
  }

  lemma OneLoc(c: seq<nat>, p: nat, x: Re, d: nat, k: Kont)
    requires Has(c, p, Enc(x, d)) && Loc(c, p + Size(x) + d, k)
    ensures Loc(c, p, Pieces([x], d, k))
  {
    assert EncPieces([x], d) == Enc(x, d);
    assert SizeBody([x]) == Size(x);
  }

  /** A node that leaves no choice: its opcode and where its next pointer leads. */
  lemma OnwardNode(c: seq<nat>, p: nat, k: Kont)
    requires KWf(k) && Loc(c, p, k) && Onward(k)
    ensures p + 2 < |c| && c[p] == FirstOp(k) && Next(c, p) >= 0 && Loc(c, Next(c, p), After(k))
  {
    hide Has, Node, Enc, Next;
    if k.Pieces? {
      OnwardPieces(c, p, k);
      var off: nat :| off > 0 && Has(c, p, Node(FirstOp(k), off)) && Loc(c, p + off, After(k));
      NextOf(c, p, FirstOp(k), off);
    } else if k.Back? {
      BackNode(c, p, k);
      NextOf(c, p, BACK, 3 + Size(k.x.x));
    } else if k.Close? {
      NextOf(c, p, CLOSE + k.n, 3 + k.d);
    } else {
      NextOf(c, p, NOTHING, 3 + k.d);
    }
  }

  lemma AfterWf(k: Kont)
    requires KWf(k) && Onward(k)
    ensures KWf(After(k))
  {
    if k.Pieces? { FirstWf(k.ps, k.d, k.k); }
    if k.Back? { assert WfPieces([k.x]); }
  }

  // ---- Steps that consume nothing ----

  predicate Still(k: Kont) { k.Close? || k.Empty? || k.Back? || (k.Pieces? && k.ps != [] && k.ps[0].Group?) }

  lemma StillStep(k: Kont, s: seq<nat>, i: nat)
    requires KWf(k) && Still(k) && Moves(k, i) && i <= |s|
    ensures Moves(After(k), i) && Work(After(k), i) < Work(k, i) && (S(k, s, i) <==> S(After(k), s, i))
  {
    if k.Back? {
      BackStep(k, s, i);
    } else if k.Pieces? {
      GroupStep(k, s, i);
    }
  }

  lemma BackStep(k: Kont, s: seq<nat>, i: nat)
    requires KWf(k) && k.Back? && Moves(k, i) && i <= |s|
    ensures Moves(After(k), i) && Work(After(k), i) < Work(k, i) && (S(k, s, i) <==> S(After(k), s, i))
  {
    var x := k.x;
    assert SizeBody([x]) == Size(x);
    MovesMore(k.k, i, i + One(PiecesWidth([x])));
    OneMeans(x, k.d, k.k, s, i);
    Means(k, s, i);
  }

  lemma OneMeans(x: Re, d: nat, k: Kont, s: seq<nat>, i: nat)
    requires i <= |s|
    ensures S(Pieces([x], d, k), s, i) <==> exists m: nat :: M(x, s, i, m) && S(k, s, m)
  {
    FirstMeans([x], d, k, s, i);
    assert [x][0] == x && Rest([x], d, k) == k;
  }

  lemma PlusSplit(y: Re, s: seq<nat>, i: nat, j: nat) returns (m: nat)
    requires M(Plus(y), s, i, j)
    ensures i <= m <= j && M(y, s, i, m) && MStar(y, s, m, j)
  {
    m :| i <= m <= j && M(y, s, i, m) && MStar(y, s, m, j);
  }

  lemma PlusJoin(y: Re, s: seq<nat>, i: nat, m: nat, j: nat)
    requires M(y, s, i, m) && MStar(y, s, m, j)
    ensures M(Plus(y), s, i, j)
  {
    MBounds(y, s, i, m);
  }

  lemma StarSplit(y: Re, s: seq<nat>, i: nat, j: nat) returns (m: nat)
    requires M(Star(y), s, i, j) && i != j
    ensures i < m <= j && M(y, s, i, m) && M(Star(y), s, m, j)
  {
    assert MStar(y, s, i, j);
    m :| i < m <= j && M(y, s, i, m) && MStar(y, s, m, j);
  }

  lemma StarJoin(y: Re, s: seq<nat>, i: nat, m: nat, j: nat)
    requires M(y, s, i, m) && M(Star(y), s, m, j) && i < m
    ensures M(Star(y), s, i, j)
  {
    MBounds(y, s, i, m);
    assert MStar(y, s, m, j);
    assert MStar(y, s, i, j);
  }

  lemma StarNone(y: Re, s: seq<nat>, i: nat)
    requires i <= |s|
    ensures M(Star(y), s, i, i) && MStar(y, s, i, i) && M(Opt(y), s, i, i)
  {
  }

  lemma OptIs(y: Re, s: seq<nat>, i: nat, j: nat)
    requires i <= j <= |s|
    ensures M(Opt(y), s, i, j) <==> i == j || M(y, s, i, j)
  {
  }

  lemma GroupIs(n: nat, alts: seq<Branch>, s: seq<nat>, i: nat, j: nat)
    ensures M(Group(n, alts), s, i, j) <==> i <= j <= |s| && MAlts(alts, s, i, j)
  {
  }

  lemma GroupStep(k: Kont, s: seq<nat>, i: nat)
    requires KWf(k) && k.Pieces? && k.ps[0].Group? && Moves(k, i) && i <= |s|
    ensures Moves(After(k), i) && Work(After(k), i) < Work(k, i) && (S(k, s, i) <==> S(After(k), s, i))
  {
    GroupWork(k, i);
    hide Moves, Work, KWf, S;
    GroupIn(k, s, i);
    GroupOut(k, s, i);
  }

  lemma GroupWork(k: Kont, i: nat)
    requires KWf(k) && k.Pieces? && k.ps[0].Group? && Moves(k, i)
    ensures Moves(After(k), i) && Work(After(k), i) < Work(k, i)
  {
    FirstMoves(k.ps, k.d, k.k, i, i + One(HasWidth(k.ps[0])));
    FirstWork(k.ps, k.d, k.k, i);
  }

  lemma GroupIn(k: Kont, s: seq<nat>, i: nat)
    requires KWf(k) && k.Pieces? && k.ps[0].Group? && i <= |s|
    ensures S(k, s, i) ==> S(After(k), s, i)
  {
    hide M;
    var x, r := k.ps[0], Rest(k.ps, k.d, k.k);
    FirstMeans(k.ps, k.d, k.k, s, i);
    if S(k, s, i) {
      var m: nat :| M(x, s, i, m) && S(r, s, m);
      GroupIs(x.n, x.alts, s, i, m);
      assert S(Close(x.n, Dist(k.ps, k.d), r), s, m);
    }
  }

  lemma GroupOut(k: Kont, s: seq<nat>, i: nat)
    requires KWf(k) && k.Pieces? && k.ps[0].Group? && i <= |s|
    ensures S(After(k), s, i) ==> S(k, s, i)
  {
    hide M;
    var x, a := k.ps[0], After(k);
    FirstMeans(k.ps, k.d, k.k, s, i);
    if S(a, s, i) {
      var m: nat :| MAlts(x.alts, s, i, m) && S(a.k, s, m);
      AltsBounds(x.alts, s, i, m);
      GroupIs(x.n, x.alts, s, i, m);
    }
  }

  lemma {:induction false} AltsBounds(bs: seq<Branch>, s: seq<nat>, i: nat, j: nat)
    requires MAlts(bs, s, i, j)
    ensures i <= j <= |s|
    decreases |bs|
  {
    if !MPieces(bs[0].ps, s, i, j) { AltsBounds(bs[1..], s, i, j); }
  }

  /** A loop x+ starts with x itself. */
  ghost function Unrolled(k: Kont, i: nat): Kont
    requires PlusFirst(k)
  {
    Pieces([k.ps[0].x], 0, Loop(k.ps[0].x, i, Dist(k.ps, k.d), Rest(k.ps, k.d, k.k)))
  }

  lemma PlusStep(c: seq<nat>, p: nat, k: Kont, s: seq<nat>, i: nat)
    requires KWf(k) && PlusFirst(k) && Loc(c, p, k) && Moves(k, i) && i <= |s|
    ensures var k1 := Unrolled(k, i);
            KWf(k1) && Loc(c, p, k1) && !PlusFirst(k1) && Moves(k1, i) && Work(k1, i) < Work(k, i)
                && (S(k, s, i) <==> S(k1, s, i))
  {
    hide KWf, Loc, Moves, Work, S, Unrolled, PlusFirst;
    PlusWork(k, i);
    PlusLoc(c, p, k, i);
    PlusMeans(k, s, i);
  }

  lemma PlusWork(k: Kont, i: nat)
    requires KWf(k) && PlusFirst(k) && Moves(k, i)
    ensures var k1 := Unrolled(k, i); KWf(k1) && !PlusFirst(k1) && Moves(k1, i) && Work(k1, i) < Work(k, i)
  {
    var y := k.ps[0].x;
    FirstWf(k.ps, k.d, k.k);
    FirstMoves(k.ps, k.d, k.k, i, i + 1);
    FirstWork(k.ps, k.d, k.k, i);
    assert WfPieces([y]) && PiecesWidth([y]);
    assert SizeBody([y]) == Size(y);
  }

  lemma PlusLoc(c: seq<nat>, p: nat, k: Kont, i: nat)
    requires PlusFirst(k) && Loc(c, p, k)
    ensures Loc(c, p, Unrolled(k, i))
  {
    hide Has, Node, Enc;
    var x, r, dist := k.ps[0], Rest(k.ps, k.d, k.k), Dist(k.ps, k.d);
    FirstLoc(c, p, k.ps, k.d, k.k);
    PlusParts(c, p, x.x, dist);
    assert Loc(c, p + Size(x.x), Loop(x.x, i, dist, r));
    OneLoc(c, p, x.x, 0, Loop(x.x, i, dist, r));
  }

  lemma PlusMeans(k: Kont, s: seq<nat>, i: nat)
    requires PlusFirst(k) && i <= |s|
    ensures S(k, s, i) <==> S(Unrolled(k, i), s, i)
  {
    var y, r, loop := k.ps[0].x, Rest(k.ps, k.d, k.k), Unrolled(k, i).k;
    FirstMeans(k.ps, k.d, k.k, s, i);
    OneMeans(y, 0, loop, s, i);
    if S(k, s, i) {
      var j: nat :| M(k.ps[0], s, i, j) && S(r, s, j);
      var m := PlusSplit(y, s, i, j);
      Means(loop, s, m);
    }
    if S(Unrolled(k, i), s, i) {
      var m: nat :| M(y, s, i, m) && S(loop, s, m);
      Means(loop, s, m);
      var j: nat :| MStar(y, s, m, j) && S(r, s, j);
      PlusJoin(y, s, i, m, j);
    }
  }

  // ---- Choices ----

  function BranchK(b: Branch, t: nat, k: Kont): Kont { if b.ps == [] then Empty(t, k) else Pieces(b.ps, t, k) }

  ghost function AltChoices(bs: seq<Branch>, d: nat, k: Kont): (r: seq<Kont>)
    ensures |r| == |bs|
  {
    if bs == [] then [] else [BranchK(bs[0], SizeAlts(bs[1..]) + d, k)] + AltChoices(bs[1..], d, k)
  }

  ghost function Choices(k: Kont, i: nat): (r: seq<Kont>)
    requires Branching(k) && KWf(k)
    ensures r != []
  {
    match k
    case Alts(bs, d, k') => AltChoices(bs, d, k')
    case Loop(y, i0, d, k') => [Back(Plus(y), i0, d, k'), Empty(d, k')]
    case Pieces(ps, d, k') =>
      var r, dist := Rest(ps, d, k'), Dist(ps, d);
      if ps[0].Opt? then [Pieces([ps[0].x], 3, Empty(dist, r)), Empty(dist, r)]
      else [Pieces([ps[0].x], 0, Back(ps[0], i, dist, r)), Empty(dist, r)]
  }

  /** A chain of BRANCH nodes whose bodies are ks. */
  ghost predicate Branches(c: seq<nat>, p: int, ks: seq<Kont>)
    decreases |ks|
  {
    && ks != [] && 0 <= p && p + 2 < |c| && c[p] == BRANCH && Loc(c, p + 3, ks[0])
    && 0 <= Next(c, p) < |c|
    && if |ks| == 1 then c[Next(c, p)] != BRANCH else Branches(c, Next(c, p), ks[1..])
  }

  lemma BodyLoc(c: seq<nat>, p: nat, b: Branch, t: nat, k: Kont)
    requires Has(c, p, EncBody(b.ps, t)) && Loc(c, p + SizeBody(b.ps) + t, k)
    ensures Loc(c, p, BranchK(b, t, k))
  {
    hide Has, Node;
  }

  lemma NotBranch(c: seq<nat>, p: nat, k: Kont)
    requires (k.Close? || k.Done? || k.Empty?) && Loc(c, p, k)
    ensures p < |c| && c[p] != BRANCH
  {
    hide Has, Node, Next;
    match k
    case Close(n, d, _) => NextOf(c, p, CLOSE + n, 3 + d);
    case Done(_) => NextOf(c, p, END, 0);
    case Empty(d, _) => NextOf(c, p, NOTHING, 3 + d);
  }

  lemma {:induction false} AltsBranches(c: seq<nat>, p: nat, bs: seq<Branch>, d: nat, k: Kont)
    requires bs != [] && Has(c, p, EncAlts(bs, d, d, |bs|)) && Loc(c, p + SizeAlts(bs) + d, k) && (k.Close? || k.Done?)
    ensures Branches(c, p, AltChoices(bs, d, k))
    decreases |bs|
  {
    hide Has, Node, EncBody, Loc;
    BranchParts(c, p, bs, d, d, |bs|);
    var b, n := bs[0], 3 + SizeBody(bs[0].ps);
    var off := n + if |bs| == 1 then d else 0;
    assert Has(c, p, Node(BRANCH, off));
    NextOf(c, p, BRANCH, off);
    BodyLoc(c, p + 3, b, SizeAlts(bs[1..]) + d, k);
    if |bs| == 1 {
      assert SizeAlts(bs) == n by { assert SizeAlts(bs[1..]) == 0; }
      NotBranch(c, p + off, k);
    } else {
      AltsBranches(c, p + n, bs[1..], d, k);
    }
  }

  /** Two BRANCH nodes: a body a, or a NOTHING node. */
  lemma TwoBranches(c: seq<nat>, p: nat, off: nat, a: Kont, d: nat, r: Kont)
    requires Has(c, p, Node(BRANCH, off)) && off >= 3 && Loc(c, p + 3, a)
    requires Has(c, p + off, Node(BRANCH, 3)) && Loc(c, p + off + 3, Empty(d, r))
    ensures Branches(c, p, [a, Empty(d, r)])
  {
    hide Has, Node, Loc;
    NextOf(c, p, BRANCH, off);
    NextOf(c, p + off, BRANCH, 3);
    NotBranch(c, p + off + 3, Empty(d, r));
    var ks := [a, Empty(d, r)];
    assert ks[1..] == [Empty(d, r)];
    assert Branches(c, p + off, ks[1..]);
  }

  lemma ChoicesAt(c: seq<nat>, p: nat, k: Kont, i: nat)
    requires KWf(k) && Branching(k) && Loc(c, p, k)
    ensures Branches(c, p, Choices(k, i))
  {
    hide Has, Node, Enc, Branches;
    match k
    case Alts(bs, d, k') => AltsBranches(c, p, bs, d, k');
    case Loop(y, i0, d, k') =>
      PlusParts(c, p - Size(y), y, d);
      assert Loc(c, p + 3, Back(Plus(y), i0, d, k'));
      assert Loc(c, p + 9, Empty(d, k'));
      TwoBranches(c, p, 6, Back(Plus(y), i0, d, k'), d, k');
    case Pieces(ps, d, k') =>
      FirstLoc(c, p, ps, d, k');
      if ps[0].Opt? {
        OptAt(c, p, ps[0].x, Dist(ps, d), Rest(ps, d, k'));
      } else {
        StarAt(c, p, ps[0].x, i, Dist(ps, d), Rest(ps, d, k'));
      }
  }

  lemma OptAt(c: seq<nat>, p: nat, y: Re, dist: nat, r: Kont)
    requires Has(c, p, Enc(Opt(y), dist)) && Loc(c, p + Size(Opt(y)) + dist, r)
    ensures Branches(c, p, [Pieces([y], 3, Empty(dist, r)), Empty(dist, r)])
  {
    hide Has, Node, Enc, Branches;
    OptParts(c, p, y, dist);
    assert Loc(c, p + 6 + Size(y), Empty(dist, r));
    hide Loc;
    OneLoc(c, p + 3, y, 3, Empty(dist, r));
    TwoBranches(c, p, 3 + Size(y), Pieces([y], 3, Empty(dist, r)), dist, r);
  }

  lemma StarAt(c: seq<nat>, p: nat, y: Re, i: nat, dist: nat, r: Kont)
    requires !Simple(y) && Has(c, p, Enc(Star(y), dist)) && Loc(c, p + Size(Star(y)) + dist, r)
    ensures Branches(c, p, [Pieces([y], 0, Back(Star(y), i, dist, r)), Empty(dist, r)])
  {
    hide Has, Node, Enc, Branches;
    StarParts(c, p, y, dist);
    assert Loc(c, p + 9 + Size(y), Empty(dist, r));
    assert Loc(c, p + 3 + Size(y), Back(Star(y), i, dist, r));
    hide Loc;
    OneLoc(c, p + 3, y, 0, Back(Star(y), i, dist, r));
    TwoBranches(c, p, 6 + Size(y), Pieces([y], 0, Back(Star(y), i, dist, r)), dist, r);
  }

  /** Every choice is smaller than the whole. */
  ghost predicate Below(a: Kont, k: Kont, i: nat) { KWf(a) && Moves(a, i) && Work(a, i) < Work(k, i) }

  lemma BranchBelow(b: Branch, t: nat, k: Kont, i: nat, wide: bool)
    requires WfPieces(b.ps) && KWf(k) && Moves(k, i + One(wide)) && (wide ==> PiecesWidth(b.ps))
    ensures var a := BranchK(b, t, k); KWf(a) && Moves(a, i) && Work(a, i) <= SizeBody(b.ps) + Work(k, i)
  {
    MovesMore(k, i + One(wide), i + One(PiecesWidth(b.ps)));
  }

  /** wide: every alternative has width. */
  lemma {:induction false} AltsBelow(bs: seq<Branch>, d: nat, k: Kont, i: nat, wide: bool, n: nat)
    requires WfAlts(bs) && KWf(k) && Moves(k, i + One(wide)) && (wide ==> AltsWidth(bs)) && n < |bs|
    ensures var a := AltChoices(bs, d, k)[n];
            KWf(a) && Moves(a, i) && Work(a, i) + 3 <= SizeAlts(bs) + Work(k, i)
    decreases |bs|
  {
    hide KWf, Moves, Work, BranchK, WfPieces, PiecesWidth, SizeBody;
    BranchBelow(bs[0], SizeAlts(bs[1..]) + d, k, i, wide);
    if n > 0 {
      AltsBelow(bs[1..], d, k, i, wide, n - 1);
      assert AltChoices(bs, d, k)[n] == AltChoices(bs[1..], d, k)[n - 1];
    }
  }

  lemma ChoicesBelow(k: Kont, i: nat)
    requires KWf(k) && Branching(k) && Moves(k, i)
    ensures forall n :: 0 <= n < |Choices(k, i)| ==> Below(Choices(k, i)[n], k, i)
  {
    match k
    case Alts(bs, d, k') => forall n
        | 0 <= n < |bs| ensures Below(Choices(k, i)[n], k, i) { AltsBelow(bs, d, k', i, AltsWidth(bs), n); }
    case Loop(y, i0, d, k') =>
    case Pieces(ps, d, k') => LoopedBelow(k, i);
  }

  lemma LoopedBelow(k: Kont, i: nat)
    requires KWf(k) && Branching(k) && k.Pieces? && Moves(k, i)
    ensures Below(Choices(k, i)[0], k, i) && Below(Choices(k, i)[1], k, i) && |Choices(k, i)| == 2
  {
    var x, r := k.ps[0], Rest(k.ps, k.d, k.k);
    FirstWf(k.ps, k.d, k.k);
    FirstMoves(k.ps, k.d, k.k, i, i);
    FirstMoves(k.ps, k.d, k.k, i, i + 1);
    FirstWork(k.ps, k.d, k.k, i);
    OneSize(x.x);
    var ks := Choices(k, i);
    if x.Opt? {
      assert ks[0] == Pieces([x.x], 3, Empty(Dist(k.ps, k.d), r));
      assert Moves(ks[0].k, i) && Moves(ks[0].k, i + 1);
    } else {
      assert ks[0] == Pieces([x.x], 0, Back(x, i, Dist(k.ps, k.d), r));
      assert Moves(ks[0].k, i + 1);
      assert Work(ks[0].k, i) == 1 + Work(r, i);
    }
    assert Work(ks[0], i) == Size(x.x) + Work(ks[0].k, i);
  }

  lemma OneSize(x: Re)
    ensures SizeBody([x]) == Size(x) && WfPieces([x]) == Wf(x) && PiecesWidth([x]) == HasWidth(x)
  {
    assert [x][1..] == [];
  }

  ghost predicate AltsThen(bs: seq<Branch>, k: Kont, s: seq<nat>, i: nat) {
    exists j: nat :: MAlts(bs, s, i, j) && S(k, s, j)
  }

  ghost predicate Some(ks: seq<Kont>, s: seq<nat>, i: nat) { exists n :: 0 <= n < |ks| && S(ks[n], s, i) }

  lemma SomeCons(a: Kont, ks: seq<Kont>, s: seq<nat>, i: nat)
    ensures Some([a] + ks, s, i) <==> S(a, s, i) || Some(ks, s, i)
  {
    var v := [a] + ks;
    if S(a, s, i) { assert S(v[0], s, i); }
    if n :| 0 <= n < |ks| && S(ks[n], s, i) { assert S(v[n + 1], s, i); }
    if n :| 0 <= n < |v| && S(v[n], s, i) { assert n > 0 ==> S(ks[n - 1], s, i); }
  }

  lemma BranchMeans(b: Branch, t: nat, k: Kont, s: seq<nat>, i: nat)
    requires i <= |s|
    ensures S(BranchK(b, t, k), s, i) <==> exists j: nat :: MPieces(b.ps, s, i, j) && S(k, s, j)
  {
    Means(BranchK(b, t, k), s, i);
    if b.ps == [] {
      assert MPieces(b.ps, s, i, i);
      assert forall j: nat :: MPieces(b.ps, s, i, j) ==> j == i;
    }
  }

  lemma {:induction false} AltsMean(bs: seq<Branch>, d: nat, k: Kont, s: seq<nat>, i: nat)
    requires i <= |s|
    ensures AltsThen(bs, k, s, i) <==> Some(AltChoices(bs, d, k), s, i)
    decreases |bs|
  {
    if bs != [] {
      var b, t := bs[0], SizeAlts(bs[1..]) + d;
      AltsMean(bs[1..], d, k, s, i);
      SomeCons(BranchK(b, t, k), AltChoices(bs[1..], d, k), s, i);
      BranchMeans(b, t, k, s, i);
      AltsOr(bs, k, s, i);
    }
  }

  lemma AltsOr(bs: seq<Branch>, k: Kont, s: seq<nat>, i: nat)
    requires bs != []
    ensures AltsThen(bs, k, s, i) <==>
            AltsThen(bs[1..], k, s, i) || exists j: nat :: MPieces(bs[0].ps, s, i, j) && S(k, s, j)
  {
    if j: nat :| MAlts(bs, s, i, j) && S(k, s, j) { AltsIs(bs, s, i, j); }
    if j: nat :| MAlts(bs[1..], s, i, j) && S(k, s, j) { AltsIs(bs, s, i, j); }
    if j: nat :| MPieces(bs[0].ps, s, i, j) && S(k, s, j) { AltsIs(bs, s, i, j); }
  }

  lemma AltsIs(bs: seq<Branch>, s: seq<nat>, i: nat, j: nat)
    requires bs != []
    ensures MAlts(bs, s, i, j) <==> MPieces(bs[0].ps, s, i, j) || MAlts(bs[1..], s, i, j)
  {
  }

  lemma ChoicesMean(k: Kont, s: seq<nat>, i: nat)
    requires KWf(k) && Branching(k) && i <= |s|
    ensures S(k, s, i) <==> Some(Choices(k, i), s, i)
  {
    match k
    case Alts(bs, d, k') =>
      AltsMean(bs, d, k', s, i);
      assert S(k, s, i) <==> AltsThen(bs, k', s, i);
    case Loop(y, i0, d, k') => LoopMeans(k, s, i);
    case Pieces(ps, d, k') => if ps[0].Opt? { OptMeans(k, s, i); } else { StarMeans(k, s, i); }
  }

  lemma TwoSome(a: Kont, b: Kont, s: seq<nat>, i: nat)
    ensures Some([a, b], s, i) <==> S(a, s, i) || S(b, s, i)
  {
    assert [a, b][0] == a && [a, b][1] == b;
  }

  lemma LoopMeans(k: Kont, s: seq<nat>, i: nat)
    requires k.Loop? && KWf(k) && i <= |s|
    ensures S(k, s, i) <==> Some(Choices(k, i), s, i)
  {
    var y, r := k.y, k.k;
    var a, b := Back(Plus(y), k.i0, k.d, r), Empty(k.d, r);
    TwoSome(a, b, s, i);
    if S(k, s, i) {
      var j: nat :| MStar(y, s, i, j) && S(r, s, j);
      StarOrPlus(y, s, i, j);
    }
    if S(a, s, i) {
      var j: nat :| M(Plus(y), s, i, j) && S(r, s, j);
      StarOrPlus(y, s, i, j);
    }
    if S(b, s, i) { assert MStar(y, s, i, i); }
  }

  lemma StarOrPlus(y: Re, s: seq<nat>, i: nat, j: nat)
    requires Wf(y) && HasWidth(y) && i <= j <= |s|
    ensures MStar(y, s, i, j) <==> i == j || M(Plus(y), s, i, j)
  {
    if m: nat :| i <= m <= j && M(y, s, i, m) && MStar(y, s, m, j) { WidthSound(y, s, i, m); }
  }

  lemma StarMeans(k: Kont, s: seq<nat>, i: nat)
    requires k.Pieces? && KWf(k) && k.ps[0].Star? && !Simple(k.ps[0].x) && i <= |s|
    ensures S(k, s, i) <==> Some(Choices(k, i), s, i)
  {
    var x, r, dist := k.ps[0], Rest(k.ps, k.d, k.k), Dist(k.ps, k.d);
    var back := Back(x, i, dist, r);
    FirstMeans(k.ps, k.d, k.k, s, i);
    OneMeans(x.x, 0, back, s, i);
    TwoSome(Pieces([x.x], 0, back), Empty(dist, r), s, i);
    FirstWf(k.ps, k.d, k.k);
    if S(k, s, i) {
      var j: nat :| M(x, s, i, j) && S(r, s, j);
      if i != j {
        var m := StarSplit(x.x, s, i, j);
        MBounds(x.x, s, i, m);
        Means(back, s, m);
      }
    }
    StarNone(x.x, s, i);
    Means(Empty(dist, r), s, i);
    if S(Pieces([x.x], 0, back), s, i) {
      var m: nat :| M(x.x, s, i, m) && S(back, s, m);
      Means(back, s, m);
      var j: nat :| M(x, s, m, j) && S(r, s, j);
      WidthSound(x.x, s, i, m);
      StarJoin(x.x, s, i, m, j);
    }
  }

  lemma OptMeans(k: Kont, s: seq<nat>, i: nat)
    requires k.Pieces? && KWf(k) && k.ps[0].Opt? && i <= |s|
    ensures S(k, s, i) <==> Some(Choices(k, i), s, i)
  {
    var x, r, dist := k.ps[0], Rest(k.ps, k.d, k.k), Dist(k.ps, k.d);
    FirstMeans(k.ps, k.d, k.k, s, i);
    OneMeans(x.x, 3, Empty(dist, r), s, i);
    TwoSome(Pieces([x.x], 3, Empty(dist, r)), Empty(dist, r), s, i);
    if S(k, s, i) {
      var j: nat :| M(x, s, i, j) && S(r, s, j);
      MBounds(x, s, i, j);
      OptIs(x.x, s, i, j);
      Means(Empty(dist, r), s, j);
    }
    StarNone(x.x, s, i);
    Means(Empty(dist, r), s, i);
    if S(Pieces([x.x], 3, Empty(dist, r)), s, i) {
      var m: nat :| M(x.x, s, i, m) && S(Empty(dist, r), s, m);
      Means(Empty(dist, r), s, m);
      MBounds(x.x, s, i, m);
      OptIs(x.x, s, i, m);
    }
  }
}
