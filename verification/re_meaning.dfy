/**
 What regular expressions mean, and what is left to be matched at a point of a program.
 */
module ReMeaning {
  import opened ReSyntax
  import opened ReCode

  // ---- Denotation ----

  /** x matches s from i up to j. */
  ghost predicate M(x: Re, s: seq<nat>, i: nat, j: nat)
    decreases x, 0
  {
    && i <= j <= |s|
    && match x
       case Bol => i == j == 0
       case Eol => i == j == |s|
       case AnyChar => j == i + 1
       case Lit(str) => s[i..j] == str
       case Class(neg, chars) => j == i + 1 && (s[i] in chars) != neg
       case Group(_, alts) => MAlts(alts, s, i, j)
       case Star(y) => MStar(y, s, i, j)
       case Plus(y) => exists m: nat :: i <= m <= j && M(y, s, i, m) && MStar(y, s, m, j)
       case Opt(y) => i == j || M(y, s, i, j)
  }

  /** Any number of ys, none of them empty. */
  ghost predicate MStar(y: Re, s: seq<nat>, i: nat, j: nat)
    decreases y, 1, j - i
  {
    i <= j <= |s| && (i == j || exists m: nat :: i < m <= j && M(y, s, i, m) && MStar(y, s, m, j))
  }

  ghost predicate MPieces(ps: seq<Re>, s: seq<nat>, i: nat, j: nat)
    decreases ps
  {
    i <= j <= |s|
    && if ps == [] then i == j
       else exists m: nat :: i <= m <= j && M(ps[0], s, i, m) && MPieces(ps[1..], s, m, j)
  }

  ghost predicate MAlts(bs: seq<Branch>, s: seq<nat>, i: nat, j: nat)
    decreases bs
  {
    bs != [] && (MPieces(bs[0].ps, s, i, j) || MAlts(bs[1..], s, i, j))
  }

  // ---- Width ----

  lemma {:induction false} WidthSound(x: Re, s: seq<nat>, i: nat, j: nat)
    requires Wf(x) && HasWidth(x) && M(x, s, i, j)
    ensures i < j
    decreases x
  {
    match x
    case Group(_, alts) => AltsWidthSound(alts, s, i, j);
    case Plus(y) =>
      var m: nat :| i <= m <= j && M(y, s, i, m) && MStar(y, s, m, j);
      WidthSound(y, s, i, m);
    case _ =>
  }

  lemma {:induction false} PiecesWidthSound(ps: seq<Re>, s: seq<nat>, i: nat, j: nat)
    requires WfPieces(ps) && PiecesWidth(ps) && MPieces(ps, s, i, j)
    ensures i < j
    decreases ps
  {
    var m: nat :| i <= m <= j && M(ps[0], s, i, m) && MPieces(ps[1..], s, m, j);
    if HasWidth(ps[0]) { WidthSound(ps[0], s, i, m); } else { PiecesWidthSound(ps[1..], s, m, j); }
  }

  lemma {:induction false} AltsWidthSound(bs: seq<Branch>, s: seq<nat>, i: nat, j: nat)
    requires WfAlts(bs) && AltsWidth(bs) && MAlts(bs, s, i, j)
    ensures i < j
    decreases bs
  {
    if MPieces(bs[0].ps, s, i, j) { PiecesWidthSound(bs[0].ps, s, i, j); } else { AltsWidthSound(bs[1..], s, i, j); }
  }

  // ---- What is left to match ----

  /** The rest of a match from some node on.  d is how far past its own code each part leads.
      Back is the end of a loop body that was entered at input position i0, Loop the choice
      between another turn and going on.  Done ends the match at a given position, or anywhere. */
  datatype Kont =
    | Done(end: int)
    | Pieces(ps: seq<Re>, d: nat, k: Kont)
    | Alts(bs: seq<Branch>, d: nat, k: Kont)
    | Close(n: nat, d: nat, k: Kont)
    | Empty(d: nat, k: Kont)
    | Back(x: Re, i0: nat, d: nat, k: Kont)
    | Loop(y: Re, i0: nat, d: nat, k: Kont)

  const ANYWHERE: Kont := Done(-1)

  ghost predicate KWf(k: Kont) {
    match k
    case Done(_) => true
    case Pieces(ps, _, k') => ps != [] && WfPieces(ps) && KWf(k')
    case Alts(bs, _, k') => bs != [] && WfAlts(bs) && KWf(k') && (k'.Close? || k'.Done?)
    case Close(n, _, k') => 1 <= n < NSUBEXP && KWf(k')
    case Empty(_, k') => KWf(k')
    case Back(x, _, _, k') => (x.Star? || x.Plus?) && Wf(x) && !Simple(x.x) && KWf(k')
    case Loop(y, _, _, k') => Wf(Plus(y)) && !Simple(y) && KWf(k')
  }

  /** What is left can be matched from i on. */
  ghost predicate S(k: Kont, s: seq<nat>, i: nat)
    decreases k
  {
    i <= |s|
    && match k
       case Done(end) => end < 0 || i == end
       case Pieces(ps, _, k') => exists j: nat :: MPieces(ps, s, i, j) && S(k', s, j)
       case Alts(bs, _, k') => exists j: nat :: MAlts(bs, s, i, j) && S(k', s, j)
       case Close(_, _, k') => S(k', s, i)
       case Empty(_, k') => S(k', s, i)
       case Back(x, _, _, k') => exists j: nat :: M(x, s, i, j) && S(k', s, j)
       case Loop(y, _, _, k') => exists j: nat :: MStar(y, s, i, j) && S(k', s, j)
  }

  /** S, unfolded once. */
  lemma {:induction false} Means(k: Kont, s: seq<nat>, i: nat)
    ensures S(k, s, i) <==>
              i <= |s|
              && match k
                 case Done(end) => end < 0 || i == end
                 case Pieces(ps, _, k') => exists j: nat :: MPieces(ps, s, i, j) && S(k', s, j)
                 case Alts(bs, _, k') => exists j: nat :: MAlts(bs, s, i, j) && S(k', s, j)
                 case Close(_, _, k') => S(k', s, i)
                 case Empty(_, k') => S(k', s, i)
                 case Back(x, _, _, k') => exists j: nat :: M(x, s, i, j) && S(k', s, j)
                 case Loop(y, _, _, k') => exists j: nat :: MStar(y, s, i, j) && S(k', s, j)
  {
    match k
    case Done(_) =>
    case Pieces(ps, _, k') =>
      if S(k, s, i) {
        var j: nat :| MPieces(ps, s, i, j) && S(k', s, j);
        assert MPieces(ps, s, i, j) && S(k', s, j);
      }
    case Alts(bs, _, k') =>
      if S(k, s, i) {
        var j: nat :| MAlts(bs, s, i, j) && S(k', s, j);
        assert MAlts(bs, s, i, j) && S(k', s, j);
      }
    case Close(_, _, _) =>
    case Empty(_, _) =>
    case Back(x, _, _, k') =>
      if S(k, s, i) {
        var j: nat :| M(x, s, i, j) && S(k', s, j);
        assert M(x, s, i, j) && S(k', s, j);
      }
    case Loop(y, _, _, k') =>
      if S(k, s, i) {
        var j: nat :| MStar(y, s, i, j) && S(k', s, j);
        assert MStar(y, s, i, j) && S(k', s, j);
      }
  }

  /** The code of k is at p. */
  ghost predicate Loc(c: seq<nat>, p: nat, k: Kont)
    decreases k
  {
    match k
    case Done(_) => Has(c, p, Node(END, 0))
    case Pieces(ps, d, k') => ps != [] && Has(c, p, EncPieces(ps, d)) && Loc(c, p + SizeBody(ps) + d, k')
    case Alts(bs, d, k') => Has(c, p, EncAlts(bs, d, d, |bs|)) && Loc(c, p + SizeAlts(bs) + d, k')
    case Close(n, d, k') => Has(c, p, Node(CLOSE + n, 3 + d)) && Loc(c, p + 3 + d, k')
    case Empty(d, k') => Has(c, p, Node(NOTHING, 3 + d)) && Loc(c, p + 3 + d, k')
    case Back(x, _, d, k') =>
      (x.Star? || x.Plus?) && p >= 3 + Size(x.x)
      && Has(c, p - 3 - Size(x.x), Enc(x, d)) && Loc(c, p - 3 - Size(x.x) + Size(x) + d, k')
    case Loop(y, _, d, k') =>
      p >= Size(y) && Has(c, p - Size(y), Enc(Plus(y), d)) && Loc(c, p - Size(y) + Size(Plus(y)) + d, k')
  }

  function One(b: bool): nat { if b then 1 else 0 }

  /** When the input has reached i, every pending loop will have moved on by the time its
      body ends. */
  ghost predicate Moves(k: Kont, i: nat)
    decreases k
  {
    match k
    case Done(_) => true
    case Pieces(ps, _, k') => Moves(k', i + One(PiecesWidth(ps)))
    case Alts(bs, _, k') => Moves(k', i + One(AltsWidth(bs)))
    case Close(_, _, k') => Moves(k', i)
    case Empty(_, k') => Moves(k', i)
    case Back(_, i0, _, k') => i > i0 && Moves(k', i)
    case Loop(_, i0, _, k') => i > i0 && Moves(k', i)
  }

  lemma {:induction false} MovesMore(k: Kont, i: nat, j: nat)
    requires Moves(k, i) && i <= j
    ensures Moves(k, j)
    decreases k
  {
    match k
    case Done(_) =>
    case Pieces(ps, _, k') => MovesMore(k', i + One(PiecesWidth(ps)), j + One(PiecesWidth(ps)));
    case Alts(bs, _, k') => MovesMore(k', i + One(AltsWidth(bs)), j + One(AltsWidth(bs)));
    case Close(_, _, k') => MovesMore(k', i, j);
    case Empty(_, k') => MovesMore(k', i, j);
    case Back(_, _, _, k') => MovesMore(k', i, j);
    case Loop(_, _, _, k') => MovesMore(k', i, j);
  }

  /** How much matching without consuming input there can be: a loop that has moved on may
      take another turn. */
  ghost function Work(k: Kont, i: nat): nat
    decreases k
  {
    match k
    case Done(_) => 0
    case Pieces(ps, _, k') => SizeBody(ps) + Work(k', i)
    case Alts(bs, _, k') => SizeAlts(bs) + Work(k', i)
    case Close(_, _, k') => 1 + Work(k', i)
    case Empty(_, k') => 1 + Work(k', i)
    case Back(x, i0, _, k') => (if i > i0 then Size(x) + 1 else 1) + Work(k', i)
    case Loop(y, i0, _, k') => (if i > i0 then Size(Plus(y)) + 2 else 2) + Work(k', i)
  }

  // ---- The first piece ----

  function Rest(ps: seq<Re>, d: nat, k: Kont): Kont
    requires ps != []
  {
    if |ps| == 1 then k else Pieces(ps[1..], d, k)
  }

  function Dist(ps: seq<Re>, d: nat): nat { if |ps| == 1 then d else 0 }

  lemma FirstLoc(c: seq<nat>, p: nat, ps: seq<Re>, d: nat, k: Kont)
    requires ps != [] && Loc(c, p, Pieces(ps, d, k))
    ensures Has(c, p, Enc(ps[0], Dist(ps, d))) && Loc(c, p + Size(ps[0]) + Dist(ps, d), Rest(ps, d, k))
  {
    hide Has, Enc, Size;
    if |ps| > 1 { HasParts(c, p, Enc(ps[0], 0), EncPieces(ps[1..], d)); }
  }

  lemma FirstMeans(ps: seq<Re>, d: nat, k: Kont, s: seq<nat>, i: nat)
    requires ps != []
    ensures S(Pieces(ps, d, k), s, i) <==> i <= |s| && exists m: nat :: M(ps[0], s, i, m) && S(Rest(ps, d, k), s, m)
  {
    if S(Pieces(ps, d, k), s, i) {
      var j: nat :| MPieces(ps, s, i, j) && S(k, s, j);
      var m := PiecesSplit(ps, s, i, j);
      assert S(Rest(ps, d, k), s, m);
    }
    if m: nat :| i <= |s| && M(ps[0], s, i, m) && S(Rest(ps, d, k), s, m) {
      assert i <= m <= |s| by { MBounds(ps[0], s, i, m); }
      var j: nat :| MPieces(ps[1..], s, m, j) && S(k, s, j) by {
        if |ps| == 1 { assert MPieces(ps[1..], s, m, m); }
      }
      PiecesJoin(ps, s, i, m, j);
    }
  }

  lemma PiecesSplit(ps: seq<Re>, s: seq<nat>, i: nat, j: nat) returns (m: nat)
    requires ps != [] && MPieces(ps, s, i, j)
    ensures i <= m <= j <= |s| && M(ps[0], s, i, m) && MPieces(ps[1..], s, m, j)
  {
    m :| i <= m <= j && M(ps[0], s, i, m) && MPieces(ps[1..], s, m, j);
  }

  lemma PiecesJoin(ps: seq<Re>, s: seq<nat>, i: nat, m: nat, j: nat)
    requires ps != [] && M(ps[0], s, i, m) && MPieces(ps[1..], s, m, j)
    ensures MPieces(ps, s, i, j)
  {
    MBounds(ps[0], s, i, m);
  }

  lemma MBounds(x: Re, s: seq<nat>, i: nat, j: nat)
    requires M(x, s, i, j)
    ensures i <= j <= |s|
  {
  }

  lemma FirstMoves(ps: seq<Re>, d: nat, k: Kont, i: nat, m: nat)
    requires ps != [] && Moves(Pieces(ps, d, k), i) && i + One(HasWidth(ps[0])) <= m
    ensures Moves(Rest(ps, d, k), m)
  {
    MovesMore(k, i + One(PiecesWidth(ps)), m + One(PiecesWidth(ps[1..])));
  }

  lemma FirstWf(ps: seq<Re>, d: nat, k: Kont)
    requires KWf(Pieces(ps, d, k))
    ensures Wf(ps[0]) && KWf(Rest(ps, d, k))
  {
  }

  lemma FirstWork(ps: seq<Re>, d: nat, k: Kont, i: nat)
    requires ps != []
    ensures Work(Pieces(ps, d, k), i) == Size(ps[0]) + Work(Rest(ps, d, k), i)
  {
    PiecesBody(ps[1..]);
  }

  lemma PiecesBody(ps: seq<Re>)
    ensures SizePieces(ps) == if ps == [] then 0 else SizeBody(ps)
  {
  }
}
