/**
 regmatch and the routines it uses, on the bytes of a program.
 */
module ReRun {
  import opened ReSyntax
  import opened ReCode
  import opened ReMeaning
  import opened ReMatch
  import opened ReEnds

  // ---- Single characters ----

  predicate OneChar(y: Re, ch: nat) {
    match y
    case AnyChar => true
    case Class(neg, chars) => (ch in chars) != neg
    case Lit(str) => |str| == 1 && str[0] == ch
    case _ => false
  }

  lemma SimpleMeans(y: Re, s: seq<nat>, i: nat, j: nat)
    requires Simple(y)
    ensures M(y, s, i, j) <==> j == i + 1 <= |s| && OneChar(y, s[i])
  {
    if y.Lit? && j == i + 1 <= |s| { assert s[i..j] == [s[i]]; }
    if M(y, s, i, j) && y.Lit? { assert |s[i..j]| == 1; }
  }

  /** How often y matches in a row from i on. */
  ghost function Run(y: Re, s: seq<nat>, i: nat): (n: nat)
    requires i <= |s|
    ensures i + n <= |s|
    decreases |s| - i
  {
    if i < |s| && OneChar(y, s[i]) then 1 + Run(y, s, i + 1) else 0
  }

  lemma {:induction false} StarRuns(y: Re, s: seq<nat>, i: nat, j: nat)
    requires Simple(y) && i <= |s|
    ensures MStar(y, s, i, j) <==> i <= j <= i + Run(y, s, i)
    decreases |s| - i
  {
    if i < |s| { StarRuns(y, s, i + 1, j); }
    if MStar(y, s, i, j) && i != j {
      var m := TurnSplit(y, s, i, j);
      SimpleMeans(y, s, i, m);
    }
    if i < j <= i + Run(y, s, i) {
      SimpleMeans(y, s, i, i + 1);
      assert M(y, s, i, i + 1) && MStar(y, s, i + 1, j);
    }
  }

  lemma TurnSplit(y: Re, s: seq<nat>, i: nat, j: nat) returns (m: nat)
    requires MStar(y, s, i, j) && i != j
    ensures i < m <= j && M(y, s, i, m) && MStar(y, s, m, j)
  {
    m :| i < m <= j && M(y, s, i, m) && MStar(y, s, m, j);
  }

  /** What a simple loop with at least min turns matches. */
  lemma LoopRuns(x: Re, s: seq<nat>, i: nat, j: nat)
    requires SimpleLoop(x) && i <= |s|
    ensures M(x, s, i, j) <==> i + (if x.Star? then 0 else 1) <= j <= i + Run(x.x, s, i)
  {
    StarRuns(x.x, s, i, j);
    if x.Plus? {
      if M(x, s, i, j) {
        var m := PlusSplit(x.x, s, i, j);
        SimpleMeans(x.x, s, i, m);
        StarRuns(x.x, s, m, j);
      }
      if i + 1 <= j <= i + Run(x.x, s, i) {
        SimpleMeans(x.x, s, i, i + 1);
        StarRuns(x.x, s, i + 1, j);
        PlusJoin(x.x, s, i, i + 1, j);
      }
    }
  }

  /** A match at an EXACTLY node begins with the first byte of its operand. */
  lemma ExactFirst(c: seq<nat>, p: nat, k: Kont, s: seq<nat>, i: nat)
    requires KWf(k) && Loc(c, p, k) && !PlusFirst(k) && p < |c| && c[p] == EXACTLY && S(k, s, i)
    ensures p + 3 < |c| && At(s, i) == c[p + 3]
  {
    FirstOpAt(c, p, k);
    var x := k.ps[0];
    FirstWf(k.ps, k.d, k.k);
    FirstLoc(c, p, k.ps, k.d, k.k);
    LeafNode(c, p, x, Dist(k.ps, k.d));
    assert c[p + 3] == x.str[0] by { HasByte(c, p + 3, x.str + [0], 0); }
    FirstMeans(k.ps, k.d, k.k, s, i);
    var m: nat :| M(x, s, i, m) && S(Rest(k.ps, k.d, k.k), s, m);
    assert s[i..m] == x.str;
  }

  lemma HasByte(c: seq<nat>, p: nat, w: seq<nat>, i: nat)
    requires Has(c, p, w) && i < |w|
    ensures p + i < |c| && c[p + i] == w[i]
  {
    assert c[p..p + |w|][i] == c[p + i];
  }

  /** The opcode at the start of k. */
  lemma FirstOpAt(c: seq<nat>, p: nat, k: Kont)
    requires KWf(k) && Loc(c, p, k) && !PlusFirst(k)
    ensures p + 2 < |c| && c[p] == FirstOp(k)
  {
    hide Has, Node, Enc, Next, Loc, Branches;
    if Onward(k) {
      OnwardNode(c, p, k);
    } else if k.Done? {
      DoneNode(c, p, k);
    } else {
      ChoicesAt(c, p, k, 0);
      FirstBranch(c, p, Choices(k, 0));
    }
  }

  lemma DoneNode(c: seq<nat>, p: nat, k: Kont)
    requires k.Done? && Loc(c, p, k)
    ensures p + 2 < |c| && c[p] == END
  {
    NextOf(c, p, END, 0);
  }

  lemma FirstBranch(c: seq<nat>, p: nat, ks: seq<Kont>)
    requires Branches(c, p, ks)
    ensures p + 2 < |c| && c[p] == BRANCH
  {
  }

  // ---- The matcher ----

  /** strlen of the operand at p. */
  method StrLen(prog: seq<nat>, p: nat, ghost w: seq<nat>) returns (n: nat)
    requires Has(prog, p, w + [0]) && 0 !in w
    ensures n == |w|
  {
    n := 0;
    while true
      invariant n <= |w|
      decreases |w| - n
    {
      HasByte(prog, p, w + [0], n);
      if prog[p + n] == 0 { return; }
      n := n + 1;
    }
  }

  class Matcher {
    const prog: seq<nat>
    const str: seq<nat>
    /** reginput */
    var input: int

    constructor (prog: seq<nat>, str: seq<nat>)
      ensures this.prog == prog && this.str == str && input == 0
    {
      this.prog, this.str, input := prog, str, 0;
    }

    /** strchr in the operand at p. */
    method StrChr(p: nat, ch: nat, ghost w: seq<nat>) returns (found: bool)
      requires Has(prog, p, w + [0]) && 0 !in w && ch != 0
      ensures found <==> ch in w
    {
      var n := 0;
      while true
        invariant n <= |w| && ch !in w[..n]
        decreases |w| - n
      {
        HasByte(prog, p, w + [0], n);
        if prog[p + n] == ch { return true; }
        if prog[p + n] == 0 { return false; }
        n := n + 1;
      }
    }

    /** strncmp of the operand at p with the input, for len characters. */
    method SameText(p: nat, len: nat) returns (same: bool)
      requires p + len <= |prog| && 0 <= input <= |str| && (forall k :: p <= k < p + len ==> prog[k] != 0)
      ensures same <==> input + len <= |str| && str[input..input + len] == prog[p..p + len]
    {
      var n := 0;
      while n < len
        invariant n <= len && input + n <= |str| && str[input..input + n] == prog[p..p + n]
      {
        if prog[p + n] != At(str, input + n) {
          assert input + len <= |str| ==> str[input..input + len][n] != prog[p..p + len][n];
          return false;
        }
        assert str[input..input + n + 1] == str[input..input + n] + [str[input + n]];
        assert prog[p..p + n + 1] == prog[p..p + n] + [prog[p + n]];
        n := n + 1;
      }
      return true;
    }

    /** A node that matches by itself: move the input past what it matches. */
    method MatchLeaf(scan: nat, ghost x: Re, ghost d: nat) returns (ok: bool)
      requires Leaf(x) && Wf(x) && Has(prog, scan, Enc(x, d)) && 0 <= input <= |str| && Text(str)
      modifies this`input
      ensures 0 <= input <= |str|
      ensures ok ==> M(x, str, old(input), input)
      ensures forall m: nat :: M(x, str, old(input), m) ==> ok && m == input
    {
      hide Has, Enc, Node;
      LeafNode(prog, scan, x, d);
      assert scan + 2 < |prog| && prog[scan] == LeafOp(x) by { NextOf(prog, scan, LeafOp(x), Size(x) + d); }
      var op := prog[scan];
      if op == BOL {
        ok := input == 0;
      } else if op == EOL {
        ok := At(str, input) == 0;
      } else if op == ANY {
        if At(str, input) == 0 { return false; }
        input := input + 1;
        ok := true;
      } else if op == EXACTLY {
        ok := MatchLit(scan + 3, x.str);
      } else {
        if At(str, input) == 0 { return false; }
        var found := StrChr(scan + 3, str[input], x.chars);
        if found != (op == ANYOF) { return false; }
        input := input + 1;
        ok := true;
      }
    }

    method MatchLit(opnd: nat, ghost w: seq<nat>) returns (ok: bool)
      requires Has(prog, opnd, w + [0]) && w != [] && 0 !in w && 0 <= input <= |str| && Text(str)
      modifies this`input
      ensures 0 <= input <= |str|
      ensures ok ==> M(Lit(w), str, old(input), input)
      ensures forall m: nat :: M(Lit(w), str, old(input), m) ==> ok && m == input
    {
      forall k | 0 <= k < |w| ensures opnd + k < |prog| && prog[opnd + k] == w[k] { HasByte(prog, opnd, w + [0], k); }
      forall m: nat | M(Lit(w), str, input, m) ensures m == input + |w| && str[input] == w[0] {
        assert |str[input..m]| == |w| && str[input..m][0] == str[input];
      }
      if prog[opnd] != At(str, input) { return false; }
      var len := StrLen(prog, opnd, w);
      assert prog[opnd..opnd + len] == w;
      var same := true;
      if len > 1 { same := SameText(opnd, len); }
      assert len == 1 ==> str[input..input + 1] == w;
      if !same { return false; }
      input := input + len;
      return true;
    }

    /** Does the simple node at p match the next character? */
    method OneMore(p: nat, ghost y: Re) returns (more: bool)
      requires Simple(y) && Wf(y) && Has(prog, p, Enc(y, -1)) && 0 <= input <= |str| && Text(str)
      ensures more <==> input < |str| && OneChar(y, str[input])
    {
      hide Has, Enc, Node;
      SimpleNode(prog, p, y);
      var op, ch := prog[p], At(str, input);
      if op == ANY {
        more := ch != 0;
      } else if op == EXACTLY {
        assert prog[p + 3] == y.str[0] by { HasByte(prog, p + 3, y.str + [0], 0); }
        more := prog[p + 3] == ch;
      } else {
        if ch == 0 { return false; }
        var found := StrChr(p + 3, ch, y.chars);
        more := found == (op == ANYOF);
      }
    }

    /** regrepeat: as many simple matches as there are. */
    method RegRepeat(p: nat, ghost y: Re) returns (count: nat)
      requires Simple(y) && Wf(y) && Has(prog, p, Enc(y, -1)) && 0 <= input <= |str| && Text(str)
      modifies this`input
      ensures count == Run(y, str, old(input)) && input == old(input) + count
    {
      count := 0;
      while true
        invariant input == old(input) + count && 0 <= input <= |str|
        invariant Run(y, str, old(input)) == count + Run(y, str, input)
        decreases |str| - input
      {
        var more := OneMore(p, y);
        if !more { return; }
        count, input := count + 1, input + 1;
      }
    }

    /** STAR and PLUS: take as much as possible, then give back one character at a time. */
    method MatchLoop(scan: nat, next: nat, ghost k: Kont) returns (ok: bool)
      requires KWf(k) && k.Pieces? && SimpleLoop(k.ps[0]) && Loc(prog, scan, k) && 0 <= input && Moves(k, input)
      requires scan + 2 < |prog| && prog[scan] == FirstOp(k) && Loc(prog, next, After(k))
      requires 0 <= input <= |str| && Text(str)
      modifies this`input
      ensures ok <==> S(Ended(k, -1), str, old(input))
      ensures ok ==> 0 <= input <= |str| && S(Ended(k, input), str, old(input))
      decreases |str| - input, Work(k, input), 0
    {
      hide Has, Enc, Node, Loc, Work, Moves, S, Ended;
      ghost var x, r := k.ps[0], After(k);
      FirstLoc(prog, scan, k.ps, k.d, k.k);
      FirstWf(k.ps, k.d, k.k);
      FirstWork(k.ps, k.d, k.k, input);
      FirstTo(k, str, input, -1);
      SimpleParts(prog, scan, x, Dist(k.ps, k.d));
      var nextch := LookAhead(next, r);
      var min := if prog[scan] == STAR then 0 else 1;
      var save := input;
      ghost var run := Run(x.x, str, save);
      var no: int := RegRepeat(scan + 3, x.x);
      forall j: nat ensures M(x, str, save, j) <==> save + min <= j <= save + run { LoopRuns(x, str, save, j); }
      while no >= min
        invariant min - 1 <= no <= run && (no >= min ==> input == save + no)
        invariant forall j: nat :: save + no < j <= save + run ==> !S(Ended(r, -1), str, j)
        decreases no
      {
        if nextch == 0 || At(str, input) == nextch {
          FirstMoves(k.ps, k.d, k.k, save, input);
          ok := RegMatch(next, r);
          if ok {
            FirstTo(k, str, save, input);
            return;
          }
        }
        no := no - 1;
        input := save + no;
      }
      return false;
    }

    /** The character the next node must start with, if that is known. */
    method LookAhead(next: nat, ghost r: Kont) returns (ch: nat)
      requires KWf(r) && Loc(prog, next, r)
      ensures ch != 0 ==> forall i: nat :: S(Ended(r, -1), str, i) ==> At(str, i) == ch
    {
      hide Loc, Ended;
      FirstByte(prog, next, r);
      if prog[next] == EXACTLY {
        ch := prog[next + 3];
        EndedWf(r, -1);
        EndedLoc(prog, next, r, -1);
        forall i: nat | S(Ended(r, -1), str, i) ensures At(str, i) == ch {
          ExactNext(prog, next, Ended(r, -1), str, i);
        }
      } else {
        ch := 0;
      }
    }

    /** BRANCH: try the alternatives one after the other. */
    method MatchBranches(scan0: nat, ghost ks0: seq<Kont>, ghost k: Kont) returns (ok: bool)
      requires Branches(prog, scan0, ks0) && 0 <= input <= |str| && Text(str)
      requires forall n :: 0 <= n < |ks0| ==> Below(ks0[n], k, input)
      modifies this`input
      ensures ok <==> SomeTo(ks0, str, old(input), -1)
      ensures ok ==> 0 <= input <= |str| && SomeTo(ks0, str, old(input), input)
      decreases |str| - input, Work(k, input), 0
    {
      hide Loc, Work, Moves, KWf, S, Ended, SomeTo;
      var scan := scan0;
      ghost var ks := ks0;
      var save := input;
      while true
        invariant Branches(prog, scan, ks) && input == save == old(input)
        invariant forall n :: 0 <= n < |ks| ==> Below(ks[n], k, input)
        invariant SomeTo(ks0, str, save, -1) ==> SomeTo(ks, str, save, -1)
        invariant forall e: int :: SomeTo(ks, str, save, e) ==> SomeTo(ks0, str, save, e)
        decreases |ks|
      {
        forall e: int
          ensures SomeTo(ks, str, save, e) <==> S(Ended(ks[0], e), str, save) || SomeTo(ks[1..], str, save, e)
        {
          SomeToCons(ks, str, save, e);
        }
        assert Below(ks[0], k, input);
        ok := RegMatch(scan + 3, ks[0]);
        if ok { return; }
        input := save;
        scan := Next(prog, scan);
        if prog[scan] != BRANCH {
          NoneTo(str, save, -1);
          return false;
        }
        assert |ks| > 1;
        assert forall n :: 0 <= n < |ks[1..]| ==> ks[1..][n] == ks[n + 1];
        ks := ks[1..];
      }
    }

    /** regmatch: can the rest of the expression, from the node at p on, be matched here? If so, the
        input is then at the end of a match. */
    method RegMatch(p: nat, ghost k0: Kont) returns (ok: bool)
      requires KWf(k0) && Loc(prog, p, k0) && 0 <= input <= |str| && Text(str) && Moves(k0, input)
      modifies this`input
      ensures ok <==> S(Ended(k0, -1), str, old(input))
      ensures ok ==> 0 <= input <= |str| && S(Ended(k0, input), str, old(input))
      decreases |str| - input, Work(k0, input), 1
    {
      hide Loc, Work, Moves, KWf, S, Next, Branches, M, Ended, SomeTo, Same, Unrolled, After, Onward, Dist, Choices;
      var scan: nat := p;
      ghost var k := k0;
      ghost var i0 := input;
      SameSelf(k0, i0, str);
      while true
        invariant KWf(k) && Loc(prog, scan, k) && 0 <= i0 <= input <= |str| && Moves(k, input)
        invariant Same(k0, i0, k, input, str)
        invariant input > i0 || Work(k, input) <= Work(k0, input)
        decreases |str| - input, Work(k, input)
      {
        if PlusFirst(k) {
          PlusStep(prog, scan, k, str, input);
          SamePlus(prog, scan, k, str, input);
          SameTrans(k0, i0, k, input, Unrolled(k, input), input, str);
          k := Unrolled(k, input);
        }
        FirstOpAt(prog, scan, k);
        HeadKinds(k);
        var op := prog[scan];
        if op == END {
          AtDone(k, str, input);
          SameAt(k0, i0, k, input, str, input);
          return true;
        }
        if op == BRANCH {
          ghost var ks := Choices(k, input);
          BranchFacts(prog, scan, k, str, input);
          var next := Next(prog, scan);
          if prog[next] == BRANCH {
            ghost var i := input;
            ok := MatchBranches(scan, ks, k);
            SameAt(k0, i0, k, i, str, input);
            return;
          }
          SameTrans(k0, i0, k, input, ks[0], input, str);
          scan, k := scan + 3, ks[0];
        } else {
          OnwardFacts(prog, scan, k);
          var next := Next(prog, scan);
          if op == STAR || op == PLUS {
            ghost var i := input;
            ok := MatchLoop(scan, next, k);
            SameAt(k0, i0, k, i, str, input);
            return;
          } else if op == NOTHING || op == BACK || op > OPEN {
            StillStep(k, str, input);
            SameStill(k, str, input);
            SameTrans(k0, i0, k, input, After(k), input, str);
            if op > OPEN {
              ghost var i := input;
              ok := RegMatch(next, After(k));
              SameAt(k0, i0, After(k), i, str, input);
              return;
            }
            scan, k := next, After(k);
          } else {
            ghost var i := input;
            LeafFacts(prog, scan, k);
            var matched := MatchLeaf(scan, k.ps[0], Dist(k.ps, k.d));
            if !matched {
              NoLeaf(k, str, i, -1);
              SameAt(k0, i0, k, i, str, -1);
              return false;
            }
            LeafStep(k, str, i, input);
            SameLeaf(k, str, i, input);
            SameTrans(k0, i0, k, i, After(k), input, str);
            scan, k := next, After(k);
          }
        }
      }
    }
  }

  /** Which kinds of rest start with which opcodes. */
  lemma HeadKinds(k: Kont)
    requires KWf(k) && !PlusFirst(k)
    ensures var op := FirstOp(k);
            && (op == END <==> k.Done?)
            && (op == BRANCH <==> Branching(k))
            && (op == STAR || op == PLUS <==> k.Pieces? && SimpleLoop(k.ps[0]))
            && (op == NOTHING || op == BACK <==> k.Empty? || k.Back?)
            && (op > OPEN <==> k.Close? || (k.Pieces? && k.ps[0].Group?))
            && (!k.Done? && !Branching(k) ==> Onward(k))
  {
    if k.Pieces? { FirstWf(k.ps, k.d, k.k); }
  }

  lemma BranchNode(c: seq<nat>, p: nat, ks: seq<Kont>)
    requires Branches(c, p, ks)
    ensures p + 2 < |c| && 0 <= Next(c, p) < |c| && Loc(c, p + 3, ks[0]) && (c[Next(c, p)] == BRANCH <==> |ks| > 1)
  {
    hide Next, Loc;
  }

  /** What is known at a node BRANCH. */
  lemma BranchFacts(c: seq<nat>, p: nat, k: Kont, s: seq<nat>, i: nat)
    requires KWf(k) && Branching(k) && Loc(c, p, k) && Moves(k, i) && i <= |s|
    ensures var ks := Choices(k, i);
            && Branches(c, p, ks) && (forall n :: 0 <= n < |ks| ==> Below(ks[n], k, i))
            && (forall e: int :: S(Ended(k, e), s, i) <==> SomeTo(ks, s, i, e))
            && p + 2 < |c| && 0 <= Next(c, p) < |c|
            && (c[Next(c, p)] != BRANCH ==>
                  && Loc(c, p + 3, ks[0]) && KWf(ks[0]) && Moves(ks[0], i) && Work(ks[0], i) < Work(k, i)
                  && Same(k, i, ks[0], i, s))
  {
    hide Loc, Work, Moves, KWf, S, Next, Branches, Branching, Choices, Ended, SomeTo, Same;
    var ks := Choices(k, i);
    ChoicesAt(c, p, k, i);
    ChoicesBelow(k, i);
    forall e: int ensures S(Ended(k, e), s, i) <==> SomeTo(ks, s, i, e) { ChoicesTo(k, s, i, e); }
    BranchNode(c, p, ks);
    assert Below(ks[0], k, i);
    if |ks| == 1 { SameOne(k, s, i); }
  }

  lemma OnwardFacts(c: seq<nat>, p: nat, k: Kont)
    requires KWf(k) && Loc(c, p, k) && Onward(k)
    ensures p + 2 < |c| && Next(c, p) >= 0 && Loc(c, Next(c, p), After(k)) && KWf(After(k))
  {
    hide Loc, KWf, Next, Onward, After, FirstOp;
    OnwardNode(c, p, k);
    AfterWf(k);
  }

  lemma LeafFacts(c: seq<nat>, p: nat, k: Kont)
    requires KWf(k) && k.Pieces? && Leaf(k.ps[0]) && Loc(c, p, k)
    ensures Wf(k.ps[0]) && Has(c, p, Enc(k.ps[0], Dist(k.ps, k.d)))
  {
    FirstWf(k.ps, k.d, k.k);
    FirstLoc(c, p, k.ps, k.d, k.k);
  }

  lemma LeafStep(k: Kont, s: seq<nat>, i: nat, j: nat)
    requires KWf(k) && k.Pieces? && Leaf(k.ps[0]) && Moves(k, i) && M(k.ps[0], s, i, j)
    ensures i <= j && Moves(After(k), j) && (j == i ==> Work(After(k), j) < Work(k, i))
  {
    FirstWf(k.ps, k.d, k.k);
    MBounds(k.ps[0], s, i, j);
    if HasWidth(k.ps[0]) { WidthSound(k.ps[0], s, i, j); }
    FirstMoves(k.ps, k.d, k.k, i, j);
    FirstWork(k.ps, k.d, k.k, i);
  }

  lemma SimpleNode(c: seq<nat>, p: nat, y: Re)
    requires Simple(y) && Has(c, p, Enc(y, -1))
    ensures p + 3 <= |c| && c[p] == LeafOp(y)
    ensures y.Lit? ==> Has(c, p + 3, y.str + [0])
    ensures y.Class? ==> Has(c, p + 3, y.chars + [0])
  {
    hide Has, Node, Next;
    if y.Lit? || y.Class? { LitParts(c, p, y, -1); }
    NextOf(c, p, LeafOp(y), 0);
  }

  /** The rest with a loop x+ at its start replaced by x and what follows it. */
  ghost function Opened(k: Kont): Kont { if PlusFirst(k) then Unrolled(k, 0) else k }

  lemma OpenedFacts(c: seq<nat>, p: nat, k: Kont)
    requires KWf(k) && Loc(c, p, k)
    ensures KWf(Opened(k)) && Loc(c, p, Opened(k)) && !PlusFirst(Opened(k)) && p + 2 < |c| && c[p] == FirstOp(Opened(k))
  {
    if PlusFirst(k) {
      FirstWf(k.ps, k.d, k.k);
      PlusLoc(c, p, k, 0);
      OneSize(k.ps[0].x);
    }
    FirstOpAt(c, p, Opened(k));
  }

  lemma FirstByte(c: seq<nat>, p: nat, k: Kont)
    requires KWf(k) && Loc(c, p, k)
    ensures p + 2 < |c| && (c[p] == EXACTLY ==> p + 3 < |c|)
  {
    OpenedFacts(c, p, k);
    var k1 := Opened(k);
    HeadKinds(k1);
    if c[p] == EXACTLY {
      FirstWf(k1.ps, k1.d, k1.k);
      FirstLoc(c, p, k1.ps, k1.d, k1.k);
      LeafNode(c, p, k1.ps[0], Dist(k1.ps, k1.d));
    }
  }

  lemma ExactNext(c: seq<nat>, p: nat, k: Kont, s: seq<nat>, i: nat)
    requires KWf(k) && Loc(c, p, k) && p < |c| && c[p] == EXACTLY && S(k, s, i)
    ensures p + 3 < |c| && At(s, i) == c[p + 3]
  {
    OpenedFacts(c, p, k);
    HeadKinds(Opened(k));
    if PlusFirst(k) { FirstWf(k.ps, k.d, k.k); }
    ExactFirst(c, p, k, s, i);
  }
}
