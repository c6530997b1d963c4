/**
 regcomp and regexec: for every pattern that compiles and every string, the matcher says yes
 exactly when some part of the string matches, and the shortcuts make no difference.
 */
module ReExec {
  import opened ReSyntax
  import opened ReCode
  import opened ReEmit
  import opened ReMeaning
  import opened ReMatch
  import opened ReEnds
  import opened ReRun
  import opened ReCompile

  /** A compiled expression; must is the place of the string in the program, or -1. */
  datatype Regexp = Regexp(start: nat, anch: bool, must: int, mlen: nat, program: seq<nat>)

  datatype Compiled = NoRegexp | Compiled(re: Regexp)

  // ---- Why the shortcuts are sound ----

  ghost predicate OccursAt(w: seq<nat>, s: seq<nat>, q: nat) { q + |w| <= |s| && s[q..q + |w|] == w }

  ghost predicate Occurs(w: seq<nat>, s: seq<nat>) { exists q: nat :: OccursAt(w, s, q) }

  lemma {:induction false} LitRequired(ps: seq<Re>, w: seq<nat>, s: seq<nat>, i: nat, j: nat)
    requires Lit(w) in ps && MPieces(ps, s, i, j)
    ensures Occurs(w, s)
    decreases |ps|
  {
    var m := PiecesSplit(ps, s, i, j);
    if ps[0] == Lit(w) {
      assert s[i..m] == w;
      assert OccursAt(w, s, i);
    } else {
      LitRequired(ps[1..], w, s, m, j);
    }
  }

  /** Every match of bs starts with this character. */
  ghost predicate StartsWith(bs: seq<Branch>, ch: nat) {
    forall s: seq<nat>, i: nat, j: nat :: MAlts(bs, s, i, j) ==> At(s, i) == ch
  }

  ghost predicate Anchored(bs: seq<Branch>) {
    forall s: seq<nat>, i: nat, j: nat :: MAlts(bs, s, i, j) ==> i == 0
  }

  ghost predicate Requires(bs: seq<Branch>, w: seq<nat>) {
    forall s: seq<nat>, i: nat, j: nat :: MAlts(bs, s, i, j) ==> Occurs(w, s)
  }

  /** The string at must, of which mlen modulo 256 characters are compared. */
  ghost predicate MustOk(re: Regexp, bs: seq<Branch>, w: seq<nat>) {
    re.must >= 0 && w != [] && 0 !in w && Has(re.program, re.must, w + [0]) && re.mlen == |w| % 256 && Requires(bs, w)
  }

  ghost predicate ShortcutsOk(re: Regexp, bs: seq<Branch>) {
    && (re.start != 0 ==> StartsWith(bs, re.start))
    && (re.anch ==> Anchored(bs))
    && (re.must != -1 ==> exists w :: MustOk(re, bs, w))
  }

  lemma OneAlt(b: Branch, s: seq<nat>, i: nat, j: nat)
    ensures MAlts([b], s, i, j) <==> MPieces(b.ps, s, i, j)
  {
    AltsIs([b], s, i, j);
    assert [b][1..] == [];
    assert !MAlts([], s, i, j);
  }

  // ---- Walking along a branch ----

  /** From p to z along next pointers there is no EXACTLY node. */
  ghost predicate Quiet(c: seq<nat>, p: int, z: nat)
    decreases z - p
  {
    0 <= p <= z && p + 2 < |c| && c[p] != EXACTLY && (p == z || (p < Next(c, p) && Quiet(c, Next(c, p), z)))
  }

  lemma QuietStep(c: seq<nat>, p: nat, op: nat, off: nat, z: nat)
    requires Has(c, p, Node(op, off)) && off > 0 && op != BACK && op != EXACTLY && Quiet(c, p + off, z)
    ensures Quiet(c, p, z)
  {
    NextOf(c, p, op, off);
  }

  lemma QuietEnd(c: seq<nat>, p: nat, op: nat, off: nat)
    requires Has(c, p, Node(op, off)) && op != EXACTLY
    ensures Quiet(c, p, p)
  {
    NextOf(c, p, op, off);
  }

  lemma {:induction false} QuietAlts(c: seq<nat>, p: nat, bs: seq<Branch>, t: nat, n: nat)
    requires Has(c, p, EncAlts(bs, 0, t, n)) && Quiet(c, p + SizeAlts(bs), p + SizeAlts(bs))
    ensures Quiet(c, p, p + SizeAlts(bs))
    decreases |bs|
  {
    hide Has, Node, Next, SizeBody, EncBody;
    if bs != [] {
      BranchParts(c, p, bs, 0, t, n);
      QuietAlts(c, p + 3 + SizeBody(bs[0].ps), bs[1..], t, if n > 0 then n - 1 else 0);
      QuietStep(c, p, BRANCH, 3 + SizeBody(bs[0].ps), p + SizeAlts(bs));
    }
  }

  lemma {:induction false} QuietTrans(c: seq<nat>, p: int, q: nat, z: nat)
    requires Quiet(c, p, q) && Quiet(c, q, z)
    ensures Quiet(c, p, z)
    decreases q - p
  {
    if p != q { QuietTrans(c, Next(c, p), q, z); }
  }

  lemma QuietOn(c: seq<nat>, p: nat, q: nat, z: nat)
    requires Quiet(c, p, p) && Next(c, p) == q && p < q && Quiet(c, q, z)
    ensures Quiet(c, p, z)
  {
  }

  /** Only a literal has an EXACTLY node on its own chain. */
  lemma QuietStar(c: seq<nat>, p: nat, y: Re, d: nat)
    requires !Simple(y) && Has(c, p, Enc(Star(y), d))
    ensures Quiet(c, p, p + Exit(Star(y)))
  {
    hide Has, Node, Enc, EncAlts, Next, Quiet;
    var z := p + Exit(Star(y));
    StarParts(c, p, y, d);
    QuietEnd(c, z, NOTHING, 3 + d);
    QuietStep(c, z - 3, BRANCH, 3, z);
    QuietStep(c, p, BRANCH, 6 + Size(y), z);
  }

  lemma {:induction false} QuietPiece(c: seq<nat>, p: nat, x: Re, d: nat)
    requires Wf(x) && !x.Lit? && Has(c, p, Enc(x, d))
    ensures Quiet(c, p, p + Exit(x))
    decreases x
  {
    hide Has, Node, Enc, EncAlts, Next, SizeAlts, Quiet, Wf;
    var z := p + Exit(x);
    match x
    case Group(n, alts) =>
      GroupParts(c, p, n, alts, d);
      QuietEnd(c, z, CLOSE + n, 3 + d);
      QuietAlts(c, p + 3, alts, 0, |alts|);
      QuietStep(c, p, OPEN + n, 3, z);
    case Star(y) =>
      if Simple(y) {
        SimpleParts(c, p, x, d);
        QuietEnd(c, p, STAR, Size(x) + d);
      } else {
        QuietStar(c, p, y, d);
      }
    case Plus(y) =>
      if Simple(y) {
        SimpleParts(c, p, x, d);
        QuietEnd(c, p, PLUS, Size(x) + d);
      } else {
        WfPlus(y);
        PlusParts(c, p, y, d);
        QuietPiece(c, p, y, 0);
        QuietPlus(c, p, y, d);
      }
    case Opt(y) =>
      OptParts(c, p, y, d);
      QuietEnd(c, z, NOTHING, 3 + d);
      QuietStep(c, z - 3, BRANCH, 3, z);
      QuietStep(c, p, BRANCH, 3 + Size(y), z);
    case Lit(_) =>
    case _ =>
      QuietLeaf(c, p, x, d);
  }

  lemma QuietLeaf(c: seq<nat>, p: nat, x: Re, d: nat)
    requires Leaf(x) && !x.Lit? && Has(c, p, Enc(x, d))
    ensures Quiet(c, p, p)
  {
    hide Has, Node, Enc, Next;
    LeafNode(c, p, x, d);
    QuietEnd(c, p, LeafOp(x), Size(x) + d);
  }

  lemma WfPlus(y: Re)
    requires Wf(Plus(y)) && !Simple(y)
    ensures y.Group? && Wf(y)
  {
  }

  lemma QuietPlus(c: seq<nat>, p: nat, y: Re, d: nat)
    requires !Simple(y) && Has(c, p, Enc(Plus(y), d)) && Quiet(c, p, p + Exit(y))
    ensures Quiet(c, p, p + Exit(Plus(y)))
  {
    hide Has, Node, Enc, Next, Quiet;
    var z := p + Exit(Plus(y));
    PlusParts(c, p, y, d);
    QuietEnd(c, z, NOTHING, 3 + d);
    QuietStep(c, z - 3, BRANCH, 3, z);
    QuietStep(c, z - 9, BRANCH, 6, z);
    ExitNext(c, p, y, 0);
    QuietLast(c, p, p + Exit(y));
    QuietOn(c, p + Exit(y), p + Size(y), z);
    QuietTrans(c, p, p + Exit(y), z);
  }

  lemma {:induction false} QuietLast(c: seq<nat>, p: int, z: nat)
    requires Quiet(c, p, z)
    ensures Quiet(c, z, z)
    decreases z - p
  {
    if p != z { QuietLast(c, Next(c, p), z); }
  }

  // ---- regcomp ----

  /** Where the walk along a branch is: at p the pieces rem begin, and scan is on the chain of
      the first of them. */
  ghost predicate OnWalk(c: seq<nat>, rem: seq<Re>, p: nat, scan: nat) {
    && WfPieces(rem) && scan + 2 < |c|
    && if rem == [] then scan == p && Loc(c, p, ANYWHERE)
       else Loc(c, p, Pieces(rem, 0, ANYWHERE)) && if rem[0].Lit? then scan == p else Quiet(c, scan, p + Exit(rem[0]))
  }

  /** Entering the next piece. */
  lemma WalkIn(c: seq<nat>, rem: seq<Re>, p: nat)
    requires WfPieces(rem) && Loc(c, p, if rem == [] then ANYWHERE else Pieces(rem, 0, ANYWHERE))
    ensures OnWalk(c, rem, p, p)
  {
    hide Has, Enc, Node, Next;
    if rem == [] {
      DoneNode(c, p, ANYWHERE);
    } else {
      FirstLoc(c, p, rem, 0, ANYWHERE);
      if rem[0].Lit? {
        LeafNode(c, p, rem[0], Dist(rem, 0));
        NextOf(c, p, EXACTLY, Size(rem[0]) + Dist(rem, 0));
      } else {
        QuietPiece(c, p, rem[0], Dist(rem, 0));
      }
    }
  }

  lemma QuietAt(c: seq<nat>, p: int, z: nat)
    requires Quiet(c, p, z)
    ensures 0 <= p && p + 2 < |c| && c[p] != EXACTLY && (p != z ==> Next(c, p) >= 0 && Quiet(c, Next(c, p), z))
  {
  }

  /** One step of the walk: within a piece, or into the next one. */
  lemma WalkStep(c: seq<nat>, rem: seq<Re>, p: nat, scan: nat)
    requires rem != [] && OnWalk(c, rem, p, scan)
    ensures var next := Next(c, scan);
            && next >= 0
            && (OnWalk(c, rem, p, next) || OnWalk(c, rem[1..], next, next))
            && (rem[0].Lit? ==> OnWalk(c, rem[1..], next, next))
            && (!OnWalk(c, rem[1..], next, next) ==> scan < next && next <= p + Exit(rem[0]))
  {
    hide Has, Enc, Node, Next, Loc;
    var z := p + Exit(rem[0]);
    FirstLoc(c, p, rem, 0, ANYWHERE);
    if rem[0].Lit? || scan == z {
      ExitNext(c, p, rem[0], Dist(rem, 0));
      WalkIn(c, rem[1..], Next(c, z));
    } else {
      QuietAt(c, scan, z);
      QuietBound(c, scan, z);
    }
  }

  lemma QuietBound(c: seq<nat>, p: nat, z: nat)
    requires Quiet(c, p, z) && p != z
    ensures p < Next(c, p) <= z
  {
  }

  /** The EXACTLY nodes the walk meets are the literals of the branch. */
  lemma WalkExact(c: seq<nat>, rem: seq<Re>, p: nat, scan: nat)
    requires OnWalk(c, rem, p, scan)
    ensures c[scan] == EXACTLY <==> rem != [] && rem[0].Lit?
    ensures c[scan] == EXACTLY ==> Wf(rem[0]) && Has(c, scan + 3, rem[0].str + [0])
    ensures rem == [] ==> Next(c, scan) == -1
  {
    hide Has, Enc, Node, Next;
    if rem == [] {
      NextOf(c, p, END, 0);
    } else if rem[0].Lit? {
      FirstLoc(c, p, rem, 0, ANYWHERE);
      LeafNode(c, p, rem[0], Dist(rem, 0));
      NextOf(c, p, EXACTLY, Size(rem[0]) + Dist(rem, 0));
    } else {
      QuietAt(c, scan, p + Exit(rem[0]));
    }
  }

  /** No literal is longer than the one found, and there is none if none was found. */
  ghost predicate LongestIn(ps: seq<Re>, longest: int, len: nat) {
    forall v: seq<nat> :: Lit(v) in ps ==> longest != -1 && |v| <= len
  }

  lemma LongestOn(pre: seq<Re>, x: Re, longest: int, len: nat, longest': int, len': nat)
    requires LongestIn(pre, longest, len) && len <= len' && (longest != -1 ==> longest' != -1)
    requires x.Lit? ==> longest' != -1 && |x.str| <= len'
    ensures LongestIn(pre + [x], longest', len')
  {
  }

  /** The longest literal a branch cannot do without. */
  method FindMust(c: seq<nat>, start: nat, ghost ps: seq<Re>) returns (longest: int, len: nat, ghost w: seq<nat>)
    requires WfPieces(ps) && Loc(c, start, if ps == [] then ANYWHERE else Pieces(ps, 0, ANYWHERE))
    ensures longest == -1 || (longest >= 0 && len == |w| && w != [] && 0 !in w && Lit(w) in ps
            && Has(c, longest, w + [0]))
    ensures LongestIn(ps, longest, len)
  {
    hide Has, Loc, Quiet, Next, OnWalk, LongestIn;
    longest, len, w := -1, 0, [];
    assert LongestIn([], longest, len) by { LongestNone(); }
    ghost var rem, pre, p := ps, [], start;
    var scan: int := start;
    WalkIn(c, ps, start);
    assert pre + rem == ps;
    while scan != -1
      invariant ps == pre + rem && 0 <= p && (scan == -1 ==> rem == [])
      invariant LongestIn(pre, longest, len) && (longest == -1 ==> len == 0)
      invariant scan != -1 ==> scan >= 0 && OnWalk(c, rem, p, scan)
      invariant longest == -1 || (longest >= 0 && len == |w| && w != [] && 0 !in w && Lit(w) in ps
                && Has(c, longest, w + [0]))
      decreases |rem|, if scan == -1 then 0 else 1, if rem == [] then 0 else p + Exit(rem[0]) - scan
    {
      WalkExact(c, rem, p, scan);
      OnWalkRange(c, rem, p, scan);
      ghost var longest0, len0 := longest, len;
      if c[scan] == EXACTLY {
        var n := StrLen(c, scan + 3, rem[0].str);
        if n >= len {
          assert Lit(rem[0].str) == ps[|pre|];
          longest, len, w := scan + 3, n, rem[0].str;
        }
      }
      var next := Next(c, scan);
      if rem != [] {
        WalkStep(c, rem, p, scan);
        if OnWalk(c, rem[1..], next, next) {
          assert pre + rem == pre + [rem[0]] + rem[1..];
          LongestOn(pre, rem[0], longest0, len0, longest, len);
          pre, rem, p := pre + [rem[0]], rem[1..], next;
        }
      }
      scan := next;
    }
    assert pre == ps;
  }

  lemma LongestNone()
    ensures LongestIn([], -1, 0)
  {
  }

  lemma OnWalkRange(c: seq<nat>, rem: seq<Re>, p: nat, scan: nat)
    requires OnWalk(c, rem, p, scan)
    ensures scan + 2 < |c| && (rem != [] ==> scan <= p + Exit(rem[0]))
  {
  }

  /** What is left at the first node of a program. */
  lemma ProgramLoc(bs: seq<Branch>)
    requires bs != []
    ensures Loc(Program(bs), 1, Alts(bs, 0, ANYWHERE))
  {
    hide EncAlts, Node;
    var c, w := Program(bs), EncAlts(bs, 0, 0, |bs|);
    assert c == [MAGIC] + w + Node(END, 0);
    HasMiddle([MAGIC], w, Node(END, 0));
    HasEnd([MAGIC] + w, Node(END, 0));
  }

  /** The first branch, and whether it is the only one. */
  lemma ProgramFirst(bs: seq<Branch>)
    requires bs != [] && WfAlts(bs)
    ensures var c := Program(bs);
            && |c| > 7 && 0 <= Next(c, 1) < |c| && (c[Next(c, 1)] == BRANCH <==> |bs| > 1)
            && (|bs| == 1 ==> c[Next(c, 1)] == END && Loc(c, 4, BranchK(bs[0], 0, ANYWHERE)))
  {
    hide EncAlts, Node, Has, Next, Branches;
    var c := Program(bs);
    ProgramLoc(bs);
    AltsBranches(c, 1, bs, 0, ANYWHERE);
    BranchNode(c, 1, AltChoices(bs, 0, ANYWHERE));
    if |bs| == 1 {
      LastBranch(bs[0], 0);
      assert bs == [bs[0]] && SizeAlts(bs[1..]) == 0;
      BranchParts(c, 1, bs, 0, 0, 1);
      NextOf(c, 1, BRANCH, 3 + SizeBody(bs[0].ps));
      DoneNode(c, 1 + SizeAlts(bs), ANYWHERE);
    }
  }

  /** A match of the only branch. */
  lemma OnlyBranch(bs: seq<Branch>, s: seq<nat>, i: nat, j: nat)
    requires |bs| == 1 && MAlts(bs, s, i, j)
    ensures MPieces(bs[0].ps, s, i, j) && S(BranchK(bs[0], 0, ANYWHERE), s, i)
  {
    assert bs == [bs[0]];
    OneAlt(bs[0], s, i, j);
    AltsBounds(bs, s, i, j);
    Means(ANYWHERE, s, j);
    BranchMeans(bs[0], 0, ANYWHERE, s, i);
  }

  lemma StartSound(bs: seq<Branch>)
    requires |bs| == 1 && WfAlts(bs) && |Program(bs)| > 7
    requires Loc(Program(bs), 4, BranchK(bs[0], 0, ANYWHERE)) && Program(bs)[4] == EXACTLY
    ensures StartsWith(bs, Program(bs)[7])
  {
    var c, k := Program(bs), BranchK(bs[0], 0, ANYWHERE);
    forall s: seq<nat>, i: nat, j: nat | MAlts(bs, s, i, j) ensures At(s, i) == c[7] {
      OnlyBranch(bs, s, i, j);
      hide Program, Loc, S;
      ExactNext(c, 4, k, s, i);
    }
  }

  lemma AnchorSound(bs: seq<Branch>)
    requires |bs| == 1 && WfAlts(bs) && |Program(bs)| > 7
    requires Loc(Program(bs), 4, BranchK(bs[0], 0, ANYWHERE)) && Program(bs)[4] == BOL
    ensures Anchored(bs)
  {
    var c, k := Program(bs), BranchK(bs[0], 0, ANYWHERE);
    assert KWf(k);
    hide Program, Loc;
    OpenedFacts(c, 4, k);
    HeadKinds(Opened(k));
    OpensWithBol(k);
    forall s: seq<nat>, i: nat, j: nat | MAlts(bs, s, i, j) ensures i == 0 {
      OnlyBranch(bs, s, i, j);
      var m := PiecesSplit(bs[0].ps, s, i, j);
    }
  }

  /** The first node of a branch is EXACTLY or BOL exactly if its first piece is a literal or ^. */
  lemma FirstNode(c: seq<nat>, b: Branch)
    requires WfPieces(b.ps) && |c| > 7 && Loc(c, 4, BranchK(b, 0, ANYWHERE))
    ensures c[4] == EXACTLY <==> b.ps != [] && b.ps[0].Lit?
    ensures c[4] == EXACTLY ==> c[7] != 0
    ensures c[4] == BOL <==> b.ps != [] && b.ps[0].Bol?
  {
    var k := BranchK(b, 0, ANYWHERE);
    assert KWf(k);
    hide Loc, Has, Enc, Node;
    OpenedFacts(c, 4, k);
    HeadKinds(Opened(k));
    if PlusFirst(k) { FirstWf(k.ps, k.d, k.k); }
    if k.Pieces? && k.ps[0].Lit? {
      FirstLoc(c, 4, k.ps, k.d, k.k);
      LeafNode(c, 4, k.ps[0], Dist(k.ps, k.d));
      HasByte(c, 7, k.ps[0].str + [0], 0);
    }
  }

  lemma OpensWithBol(k: Kont)
    requires KWf(k) && !PlusFirst(Opened(k)) && (Opened(k).Pieces? ==> Opened(k).ps != []) && FirstOp(Opened(k)) == BOL
    ensures k.Pieces? && k.ps[0].Bol?
  {
    if PlusFirst(k) { FirstWf(k.ps, k.d, k.k); }
  }

  lemma MustSound(bs: seq<Branch>, w: seq<nat>)
    requires |bs| == 1 && Lit(w) in bs[0].ps
    ensures Requires(bs, w)
  {
    forall s: seq<nat>, i: nat, j: nat | MAlts(bs, s, i, j) ensures Occurs(w, s) {
      OnlyBranch(bs, s, i, j);
      LitRequired(bs[0].ps, w, s, i, j);
    }
  }

  ghost predicate HasLit(ps: seq<Re>) { exists v: seq<nat> :: Lit(v) in ps }

  /** The hints for regexec; sp is the flag SPSTART. The first character is given exactly when the
      only branch begins with a literal, the anchor when it begins with ^, and a string to look for
      when it has that flag and a literal; no literal is longer than that string. */
  method DigOut(c: seq<nat>, sp: bool, ghost bs: seq<Branch>) returns (re: Regexp)
    requires c == Program(bs) && bs != [] && WfAlts(bs) && sp == AltsSp(bs)
    ensures re.program == c && ShortcutsOk(re, bs)
    ensures re.start != 0 <==> |bs| == 1 && bs[0].ps != [] && bs[0].ps[0].Lit?
    ensures re.anch <==> |bs| == 1 && bs[0].ps != [] && bs[0].ps[0].Bol?
    ensures re.must != -1 <==> |bs| == 1 && sp && HasLit(bs[0].ps)
    ensures re.must != -1 ==> exists w :: MustOk(re, bs, w) && LongestIn(bs[0].ps, re.must, |w|)
  {
    hide Program, Loc, Next, Has, StartsWith, Anchored, Requires, SizeAlts;
    ProgramFirst(bs);
    var start, anch, must, mlen := 0, false, -1, 0;
    ghost var w := [];
    if c[Next(c, 1)] == END {
      FirstNode(c, bs[0]);
      if c[4] == EXACTLY {
        start := c[7];
        StartSound(bs);
      } else if c[4] == BOL {
        anch := true;
        AnchorSound(bs);
      }
      if sp {
        OneSp(bs);
        var len;
        must, len, w := FindMust(c, 4, bs[0].ps);
        mlen := len % 256;
        if must != -1 { MustSound(bs, w); }
      }
    }
    re := Regexp(start, anch, must, mlen, c);
    assert must != -1 ==> MustOk(re, bs, w);
  }

  lemma OneSp(bs: seq<Branch>)
    requires |bs| == 1 && AltsSp(bs)
    ensures bs[0].ps != [] && BranchK(bs[0], 0, ANYWHERE) == Pieces(bs[0].ps, 0, ANYWHERE)
  {
    assert bs[1..] == [];
  }

  /** A pattern compiles exactly when it parses and its code is small enough for 16-bit
      offsets; the second pass writes as many bytes as the first has counted. */
  method RegComp(exp: seq<nat>) returns (r: Compiled)
    requires Text(exp)
    ensures r.NoRegexp? <==> Parse(exp).Fail? || |Program(Parse(exp).value)| >= 32767
    ensures r.Compiled? ==> r.re.program == Program(Parse(exp).value) && ShortcutsOk(r.re, Parse(exp).value)
  {
    hide EncAlts, Node, PReg;
    ghost var p := Parse(exp);
    var c := new Compiler(exp);
    var ok, sp := Pass(c);
    if !ok { return NoRegexp; }
    if c.size >= 32767 { return NoRegexp; }
    c.parse, c.npar, c.dummy, c.code := 0, 1, false, 0;
    c.prog := new nat[c.size];
    ok, sp := Pass(c);
    var program := c.prog[..];
    assert c.code == c.prog.Length;
    var re := DigOut(program, sp, p.value);
    return Compiled(re);
  }

  /** One pass over the pattern. */
  method Pass(c: Compiler) returns (ok: bool, sp: bool)
    requires c.Valid() && c.parse == 0 && c.npar == 1 && (if c.dummy then c.size == 0 else c.code == 0)
    requires !c.dummy ==> Parse(c.exp).Ok? && |Program(Parse(c.exp).value)| <= c.prog.Length
    modifies c`parse, c`npar, c`size, c`code, c.prog
    ensures c.Valid() && ok == Parse(c.exp).Ok?
    ensures ok ==> var bs := Parse(c.exp).value;
                   sp == AltsSp(bs) && if c.dummy then c.size == |Program(bs)| else c.Out() == Program(bs)
  {
    hide EncAlts, Node, PReg, AltsSp;
    ghost var p := Parse(c.exp);
    c.RegC(MAGIC);
    var ret, width;
    ok, ret, width, sp := c.Reg(false);
    if ok {
      assert [] + EncAlts(p.value, 0, 0, |p.value|) == EncAlts(p.value, 0, 0, |p.value|);
      ProgramCat(EncAlts(p.value, 0, 0, |p.value|), Node(END, 0));
    }
  }

  lemma ProgramCat(w: seq<nat>, e: seq<nat>)
    ensures [] + [MAGIC] + ([] + w + e) == [MAGIC] + w + e && [MAGIC] + ([] + w + e) == [MAGIC] + w + e
  {
  }

  // ---- regexec ----

  ghost predicate MatchesAt(bs: seq<Branch>, s: seq<nat>, i: nat) { exists j: nat :: MAlts(bs, s, i, j) }

  /** Some part of s matches. */
  ghost predicate Matches(bs: seq<Branch>, s: seq<nat>) { exists i: nat :: MatchesAt(bs, s, i) }

  lemma MatchBounds(bs: seq<Branch>, s: seq<nat>, i: nat)
    requires MatchesAt(bs, s, i)
    ensures i <= |s|
  {
    var j: nat :| MAlts(bs, s, i, j);
    AltsBounds(bs, s, i, j);
  }

  /** regtry: match at a given place; it reports where the match ends. */
  method RegTry(m: Matcher, i: nat, ghost bs: seq<Branch>) returns (ok: bool, end: int)
    requires bs != [] && WfAlts(bs) && m.prog == Program(bs) && Text(m.str) && i <= |m.str|
    modifies m`input
    ensures ok <==> MatchesAt(bs, m.str, i)
    ensures ok ==> end >= 0 && MAlts(bs, m.str, i, end)
  {
    hide Program;
    ProgramLoc(bs);
    m.input, end := i, -1;
    ghost var k := Alts(bs, 0, ANYWHERE);
    ok := m.RegMatch(1, k);
    WholeMatch(bs, m.str, i, -1);
    if ok {
      end := m.input;
      WholeMatch(bs, m.str, i, end);
    }
  }

  /** What the matcher says of a whole expression. */
  lemma WholeMatch(bs: seq<Branch>, s: seq<nat>, i: nat, e: int)
    requires i <= |s|
    ensures var k := Ended(Alts(bs, 0, ANYWHERE), e);
            S(k, s, i) <==> if e < 0 then MatchesAt(bs, s, i) else MAlts(bs, s, i, e)
  {
    assert Ended(Alts(bs, 0, ANYWHERE), e) == Alts(bs, 0, Done(e));
    Means(Alts(bs, 0, Done(e)), s, i);
    forall j: nat | MAlts(bs, s, i, j) ensures S(Done(e), s, j) <==> e < 0 || j == e {
      AltsBounds(bs, s, i, j);
      Means(Done(e), s, j);
    }
  }

  /** strchr: the next place of ch, or -1. */
  method NextChar(s: seq<nat>, from: nat, ch: nat) returns (r: int)
    requires from <= |s|
    ensures r == -1 || (from <= r < |s| && s[r] == ch)
    ensures forall k :: from <= k < (if r == -1 then |s| else r) ==> s[k] != ch
  {
    r := from;
    while r < |s|
      invariant from <= r <= |s| && forall k :: from <= k < r ==> s[k] != ch
    {
      if s[r] == ch { return; }
      r := r + 1;
    }
    return -1;
  }

  /** The search for the string that must appear; as the length is kept in one byte, only its
      first characters may be compared. */
  method HasMust(m: Matcher, must: nat, mlen: nat, ghost w: seq<nat>) returns (found: bool)
    requires w != [] && 0 !in w && Has(m.prog, must, w + [0]) && mlen == |w| % 256
    modifies m`input
    ensures !found ==> !Occurs(w, m.str)
  {
    forall k | 0 <= k < |w| ensures must + k < |m.prog| && m.prog[must + k] == w[k] {
      HasByte(m.prog, must, w + [0], k);
    }
    assert mlen <= |w|;
    var s := 0;
    while true
      invariant 0 <= s <= |m.str| && forall q: nat :: q < s ==> !OccursAt(w, m.str, q)
      decreases |m.str| - s
    {
      var q := NextChar(m.str, s, m.prog[must]);
      if q == -1 {
        forall k: nat | s <= k ensures !OccursAt(w, m.str, k) { FirstChar(w, m.str, k); }
        return false;
      }
      forall k: nat | s <= k < q ensures !OccursAt(w, m.str, k) { FirstChar(w, m.str, k); }
      OccursPrefix(w, m.str, q, mlen);
      assert m.prog[must..must + mlen] == w[..mlen];
      m.input := q;
      var same := m.SameText(must, mlen);
      if same { return true; }
      s := q + 1;
    }
  }

  lemma OccursPrefix(w: seq<nat>, s: seq<nat>, q: nat, n: nat)
    requires n <= |w|
    ensures OccursAt(w, s, q) ==> q + n <= |s| && s[q..q + n] == w[..n]
  {
    if OccursAt(w, s, q) { assert s[q..q + |w|][..n] == s[q..q + n]; }
  }

  lemma FirstChar(w: seq<nat>, s: seq<nat>, q: nat)
    requires w != []
    ensures OccursAt(w, s, q) ==> q < |s| && s[q] == w[0]
  {
    if OccursAt(w, s, q) { assert s[q..q + |w|][0] == s[q]; }
  }

  /** A match found is the first one there is. */
  ghost predicate FirstMatch(bs: seq<Branch>, s: seq<nat>, start: int, end: int) {
    0 <= start <= end && MAlts(bs, s, start, end) && forall i: nat :: i < start ==> !MatchesAt(bs, s, i)
  }

  method RegExec(re: Regexp, text: seq<nat>, ghost bs: seq<Branch>) returns (ok: bool, start: int, end: int)
    requires bs != [] && WfAlts(bs) && re.program == Program(bs) && ShortcutsOk(re, bs) && Text(text)
    ensures ok <==> Matches(bs, text)
    ensures ok ==> FirstMatch(bs, text, start, end)
  {
    hide StartsWith, Anchored, Requires;
    start, end := -1, -1;
    if re.program[0] != MAGIC { return false, start, end; }
    hide Program, MatchesAt, FirstMatch;
    var m := new Matcher(re.program, text);
    if re.must != -1 {
      ghost var w :| MustOk(re, bs, w);
      var found := HasMust(m, re.must, re.mlen, w);
      if !found {
        NeedsMust(bs, w, text);
        return false, start, end;
      }
    }
    if re.anch {
      ok, end := RegTry(m, 0, bs);
      start := 0;
      OnlyFirst(bs, text);
      if ok { IsFirst(bs, text, 0, end); }
      return;
    }
    if re.start != 0 {
      ok, start, end := TryStarts(m, re.start, bs);
    } else {
      ok, start, end := TryAll(m, bs);
    }
  }

  lemma IsFirst(bs: seq<Branch>, s: seq<nat>, start: nat, end: nat)
    requires MAlts(bs, s, start, end) && forall i: nat :: i < start ==> !MatchesAt(bs, s, i)
    ensures FirstMatch(bs, s, start, end)
  {
    AltsBounds(bs, s, start, end);
  }

  lemma NeedsMust(bs: seq<Branch>, w: seq<nat>, s: seq<nat>)
    requires Requires(bs, w) && !Occurs(w, s)
    ensures !Matches(bs, s)
  {
  }

  lemma OnlyFirst(bs: seq<Branch>, s: seq<nat>)
    requires Anchored(bs)
    ensures Matches(bs, s) <==> MatchesAt(bs, s, 0)
  {
  }

  lemma StartChar(bs: seq<Branch>, ch: nat, s: seq<nat>, i: nat)
    requires StartsWith(bs, ch) && MatchesAt(bs, s, i)
    ensures At(s, i) == ch
  {
  }

  /** Try every place where a match can start. */
  method TryStarts(m: Matcher, start: nat, ghost bs: seq<Branch>) returns (ok: bool, place: int, end: int)
    requires bs != [] && WfAlts(bs) && m.prog == Program(bs) && Text(m.str) && start != 0 && StartsWith(bs, start)
    modifies m`input
    ensures ok <==> Matches(bs, m.str)
    ensures ok ==> FirstMatch(bs, m.str, place, end)
  {
    hide Program, MatchesAt, StartsWith, FirstMatch;
    var s := 0;
    place, end := -1, -1;
    while true
      invariant 0 <= s <= |m.str| && forall k: nat :: k < s ==> !MatchesAt(bs, m.str, k)
      decreases |m.str| - s
    {
      var q := NextChar(m.str, s, start);
      forall k: nat | s <= k && (q == -1 || k < q) ensures !MatchesAt(bs, m.str, k) {
        if MatchesAt(bs, m.str, k) { StartChar(bs, start, m.str, k); }
      }
      if q == -1 { return false, -1, -1; }
      ok, end := RegTry(m, q, bs);
      if ok {
        IsFirst(bs, m.str, q, end);
        return ok, q, end;
      }
      s := q + 1;
    }
  }

  /** Try every place, the end of the string included. */
  method TryAll(m: Matcher, ghost bs: seq<Branch>) returns (ok: bool, place: int, end: int)
    requires bs != [] && WfAlts(bs) && m.prog == Program(bs) && Text(m.str)
    modifies m`input
    ensures ok <==> Matches(bs, m.str)
    ensures ok ==> FirstMatch(bs, m.str, place, end)
  {
    hide Program, MatchesAt, FirstMatch;
    var s := 0;
    place, end := -1, -1;
    while true
      invariant 0 <= s <= |m.str| && forall k: nat :: k < s ==> !MatchesAt(bs, m.str, k)
      decreases |m.str| - s
    {
      ok, end := RegTry(m, s, bs);
      if ok {
        IsFirst(bs, m.str, s, end);
        return ok, s, end;
      }
      if At(m.str, s) == 0 {
        forall k: nat ensures !MatchesAt(bs, m.str, k) { if MatchesAt(bs, m.str, k) { MatchBounds(bs, m.str, k); } }
        return false, -1, -1;
      }
      s := s + 1;
    }
  }

  /** For every pattern that compiles and every string: the answer is yes exactly when some part
      of the string matches the pattern, and then the bounds of a match are reported that starts
      where no other does before it. */
  method Search(exp: seq<nat>, text: seq<nat>) returns (compiled: bool, matched: bool, start: int, end: int)
    requires Text(exp) && Text(text)
    ensures compiled <==> Parse(exp).Ok? && |Program(Parse(exp).value)| < 32767
    ensures compiled ==> (matched <==> Matches(Parse(exp).value, text))
    ensures compiled && matched ==> FirstMatch(Parse(exp).value, text, start, end)
  {
    hide FirstMatch;
    var r := RegComp(exp);
    if r.NoRegexp? { return false, false, -1, -1; }
    matched, start, end := RegExec(r.re, text, Parse(exp).value);
    compiled := true;
  }
}
