/**
 Where a match ends: the rest of a match with its end given, and that the steps of the matcher
 keep, for every end, whether the rest can be matched.
 */
module ReEnds {
  import opened ReSyntax
  import opened ReCode
  import opened ReMeaning
  import opened ReMatch

  /** k, but the match ends at e, or anywhere if e is negative. */
  ghost function Ended(k: Kont, e: int): Kont {
    match k
    case Done(_) => Done(e)
    case Pieces(ps, d, k') => Pieces(ps, d, Ended(k', e))
    case Alts(bs, d, k') => Alts(bs, d, Ended(k', e))
    case Close(n, d, k') => Close(n, d, Ended(k', e))
    case Empty(d, k') => Empty(d, Ended(k', e))
    case Back(x, i0, d, k') => Back(x, i0, d, Ended(k', e))
    case Loop(y, i0, d, k') => Loop(y, i0, d, Ended(k', e))
  }

  lemma {:induction false} EndedWf(k: Kont, e: int)
    requires KWf(k)
    ensures KWf(Ended(k, e))
  {
    match k
    case Done(_) =>
    case Pieces(_, _, k') => EndedWf(k', e);
    case Alts(_, _, k') => EndedWf(k', e);
    case Close(_, _, k') => EndedWf(k', e);
    case Empty(_, k') => EndedWf(k', e);
    case Back(_, _, _, k') => EndedWf(k', e);
    case Loop(_, _, _, k') => EndedWf(k', e);
  }

  lemma {:induction false} EndedMoves(k: Kont, e: int, i: nat)
    requires Moves(k, i)
    ensures Moves(Ended(k, e), i)
  {
    match k
    case Done(_) =>
    case Pieces(ps, _, k') => EndedMoves(k', e, i + One(PiecesWidth(ps)));
    case Alts(bs, _, k') => EndedMoves(k', e, i + One(AltsWidth(bs)));
    case Close(_, _, k') => EndedMoves(k', e, i);
    case Empty(_, k') => EndedMoves(k', e, i);
    case Back(_, _, _, k') => EndedMoves(k', e, i);
    case Loop(_, _, _, k') => EndedMoves(k', e, i);
  }

  lemma {:induction false} EndedLoc(c: seq<nat>, p: nat, k: Kont, e: int)
    requires Loc(c, p, k)
    ensures Loc(c, p, Ended(k, e))
    decreases k
  {
    hide Has, Enc, EncPieces, EncAlts, Node, Size, SizeBody, SizeAlts;
    match k
    case Done(_) =>
    case Pieces(ps, d, k') => EndedLoc(c, p + SizeBody(ps) + d, k', e);
    case Alts(bs, d, k') => EndedLoc(c, p + SizeAlts(bs) + d, k', e);
    case Close(_, d, k') => EndedLoc(c, p + 3 + d, k', e);
    case Empty(d, k') => EndedLoc(c, p + 3 + d, k', e);
    case Back(x, _, d, k') => EndedLoc(c, p - 3 - Size(x.x) + Size(x) + d, k', e);
    case Loop(y, _, d, k') => EndedLoc(c, p - Size(y) + Size(Plus(y)) + d, k', e);
  }

  lemma EndedRest(ps: seq<Re>, d: nat, k: Kont, e: int)
    requires ps != []
    ensures Rest(ps, d, Ended(k, e)) == Ended(Rest(ps, d, k), e)
  {
  }

  lemma EndedAfter(k: Kont, e: int)
    requires Onward(k)
    ensures Onward(Ended(k, e)) && After(Ended(k, e)) == Ended(After(k), e) && (Still(k) ==> Still(Ended(k, e)))
  {
    if k.Pieces? {
      EndedRest(k.ps, k.d, k.k, e);
      var r := Rest(k.ps, k.d, k.k);
      if k.ps[0].Group? {
        var c := Close(k.ps[0].n, Dist(k.ps, k.d), r);
        assert Ended(c, e) == Close(k.ps[0].n, Dist(k.ps, k.d), Ended(r, e));
        assert Ended(Alts(k.ps[0].alts, 0, c), e) == Alts(k.ps[0].alts, 0, Ended(c, e));
      }
    }
  }

  lemma EndedUnrolled(k: Kont, e: int, i: nat)
    requires PlusFirst(k)
    ensures PlusFirst(Ended(k, e)) && Unrolled(Ended(k, e), i) == Ended(Unrolled(k, i), e)
  {
    EndedRest(k.ps, k.d, k.k, e);
    var y, r := k.ps[0].x, Rest(k.ps, k.d, k.k);
    var l := Loop(y, i, Dist(k.ps, k.d), r);
    assert Ended(l, e) == Loop(y, i, Dist(k.ps, k.d), Ended(r, e));
    assert Ended(Pieces([y], 0, l), e) == Pieces([y], 0, Ended(l, e));
  }

  lemma {:induction false} EndedAlts(bs: seq<Branch>, d: nat, k: Kont, e: int, n: nat)
    requires n < |bs|
    ensures AltChoices(bs, d, Ended(k, e))[n] == Ended(AltChoices(bs, d, k)[n], e)
    decreases |bs|
  {
    if n > 0 { EndedAlts(bs[1..], d, k, e, n - 1); }
  }

  lemma EndedChoices(k: Kont, e: int, i: nat)
    requires KWf(k) && Branching(k)
    ensures KWf(Ended(k, e)) && Branching(Ended(k, e)) && |Choices(Ended(k, e), i)| == |Choices(k, i)|
    ensures forall n: nat :: n < |Choices(k, i)| ==> Choices(Ended(k, e), i)[n] == Ended(Choices(k, i)[n], e)
  {
    EndedWf(k, e);
    if k.Alts? {
      forall n: nat | n < |k.bs|
        ensures AltChoices(k.bs, k.d, Ended(k.k, e))[n] == Ended(AltChoices(k.bs, k.d, k.k)[n], e)
      {
        EndedAlts(k.bs, k.d, k.k, e, n);
      }
    } else if k.Loop? {
      assert Ended(Back(Plus(k.y), k.i0, k.d, k.k), e) == Back(Plus(k.y), k.i0, k.d, Ended(k.k, e));
      assert Ended(Empty(k.d, k.k), e) == Empty(k.d, Ended(k.k, e));
    } else {
      EndedRest(k.ps, k.d, k.k, e);
      var x, r, dist := k.ps[0], Rest(k.ps, k.d, k.k), Dist(k.ps, k.d);
      var empty, back := Empty(dist, r), Back(x, i, dist, r);
      assert Ended(empty, e) == Empty(dist, Ended(r, e)) && Ended(back, e) == Back(x, i, dist, Ended(r, e));
      assert Ended(Pieces([x.x], 3, empty), e) == Pieces([x.x], 3, Ended(empty, e));
      assert Ended(Pieces([x.x], 0, back), e) == Pieces([x.x], 0, Ended(back, e));
    }
  }

  // ---- for every end ----

  /** For every end, k can be matched from i on exactly when k' can from i' on. */
  ghost predicate Same(k: Kont, i: nat, k': Kont, i': nat, s: seq<nat>) {
    forall e: int :: S(Ended(k, e), s, i) <==> S(Ended(k', e), s, i')
  }

  lemma SameSelf(k: Kont, i: nat, s: seq<nat>)
    ensures Same(k, i, k, i, s)
  {
  }

  lemma SameTrans(a: Kont, i: nat, b: Kont, j: nat, c: Kont, m: nat, s: seq<nat>)
    requires Same(a, i, b, j, s) && Same(b, j, c, m, s)
    ensures Same(a, i, c, m, s)
  {
  }

  /** What is known of one rest, for any end and for the end e, is known of the other. */
  lemma SameAt(k: Kont, i: nat, k': Kont, i': nat, s: seq<nat>, e: int)
    requires Same(k, i, k', i', s)
    ensures S(Ended(k, -1), s, i) <==> S(Ended(k', -1), s, i')
    ensures S(Ended(k, e), s, i) <==> S(Ended(k', e), s, i')
  {
    hide S, Ended;
  }

  lemma SameStill(k: Kont, s: seq<nat>, i: nat)
    requires KWf(k) && Still(k) && Onward(k) && Moves(k, i) && i <= |s|
    ensures Same(k, i, After(k), i, s)
  {
    hide KWf, Moves, S, Ended;
    forall e: int ensures S(Ended(k, e), s, i) <==> S(Ended(After(k), e), s, i) {
      EndedWf(k, e);
      EndedMoves(k, e, i);
      EndedAfter(k, e);
      StillStep(Ended(k, e), s, i);
    }
  }

  lemma SamePlus(c: seq<nat>, p: nat, k: Kont, s: seq<nat>, i: nat)
    requires KWf(k) && PlusFirst(k) && Loc(c, p, k) && Moves(k, i) && i <= |s|
    ensures Same(k, i, Unrolled(k, i), i, s)
  {
    hide KWf, Moves, S, Ended, Loc, PlusFirst, Unrolled;
    forall e: int ensures S(Ended(k, e), s, i) <==> S(Ended(Unrolled(k, i), e), s, i) {
      EndedUnrolled(k, e, i);
      PlusMeans(Ended(k, e), s, i);
    }
  }

  /** Some choice leads to the end e. */
  ghost predicate SomeTo(ks: seq<Kont>, s: seq<nat>, i: nat, e: int) {
    exists n: nat :: n < |ks| && S(Ended(ks[n], e), s, i)
  }

  lemma ChoicesTo(k: Kont, s: seq<nat>, i: nat, e: int)
    requires KWf(k) && Branching(k) && i <= |s|
    ensures S(Ended(k, e), s, i) <==> SomeTo(Choices(k, i), s, i, e)
  {
    EndedChoices(k, e, i);
    hide KWf, S, Ended, Choices, Branching;
    ChoicesMean(Ended(k, e), s, i);
    var ks, es := Choices(k, i), Choices(Ended(k, e), i);
    if n: nat :| n < |ks| && S(Ended(ks[n], e), s, i) { assert S(es[n], s, i); }
    if n :| 0 <= n < |es| && S(es[n], s, i) { assert S(Ended(ks[n], e), s, i); }
  }

  lemma SomeToCons(ks: seq<Kont>, s: seq<nat>, i: nat, e: int)
    requires ks != []
    ensures SomeTo(ks, s, i, e) <==> S(Ended(ks[0], e), s, i) || SomeTo(ks[1..], s, i, e)
  {
    hide S, Ended;
    if n: nat :| n < |ks| && S(Ended(ks[n], e), s, i) {
      if n > 0 { assert ks[1..][n - 1] == ks[n]; }
    }
    if n: nat :| n < |ks[1..]| && S(Ended(ks[1..][n], e), s, i) { assert ks[1..][n] == ks[n + 1]; }
  }

  lemma NoneTo(s: seq<nat>, i: nat, e: int)
    ensures !SomeTo([], s, i, e)
  {
  }

  lemma SameOne(k: Kont, s: seq<nat>, i: nat)
    requires KWf(k) && Branching(k) && i <= |s| && |Choices(k, i)| == 1
    ensures Same(k, i, Choices(k, i)[0], i, s)
  {
    hide KWf, S, Ended, Choices, Branching;
    var ks := Choices(k, i);
    forall e: int ensures S(Ended(k, e), s, i) <==> S(Ended(ks[0], e), s, i) {
      ChoicesTo(k, s, i, e);
      SomeToCons(ks, s, i, e);
      assert ks[1..] == [];
    }
  }

  /** The first piece and the rest, for an end. */
  lemma FirstTo(k: Kont, s: seq<nat>, i: nat, e: int)
    requires KWf(k) && k.Pieces? && !k.ps[0].Group? && Onward(k) && i <= |s|
    ensures S(Ended(k, e), s, i) <==> exists m: nat :: M(k.ps[0], s, i, m) && S(Ended(After(k), e), s, m)
  {
    EndedAfter(k, e);
    FirstMeans(k.ps, k.d, Ended(k.k, e), s, i);
    assert Rest(k.ps, k.d, Ended(k.k, e)) == Ended(After(k), e);
  }

  /** A first piece that matches only up to j. */
  lemma SameLeaf(k: Kont, s: seq<nat>, i: nat, j: nat)
    requires KWf(k) && k.Pieces? && !k.ps[0].Group? && Onward(k) && i <= |s|
    requires M(k.ps[0], s, i, j) && forall m: nat :: M(k.ps[0], s, i, m) ==> m == j
    ensures Same(k, i, After(k), j, s)
  {
    hide KWf, S, Ended, M, Onward, After;
    forall e: int ensures S(Ended(k, e), s, i) <==> S(Ended(After(k), e), s, j) { FirstTo(k, s, i, e); }
  }

  lemma NoLeaf(k: Kont, s: seq<nat>, i: nat, e: int)
    requires KWf(k) && k.Pieces? && !k.ps[0].Group? && Onward(k) && i <= |s| && forall m: nat :: !M(k.ps[0], s, i, m)
    ensures !S(Ended(k, e), s, i)
  {
    hide KWf, S, Ended, M, Onward, After;
    FirstTo(k, s, i, e);
  }

  lemma AtDone(k: Kont, s: seq<nat>, i: nat)
    requires k.Done? && i <= |s|
    ensures S(Ended(k, -1), s, i) && S(Ended(k, i), s, i)
  {
  }
}
