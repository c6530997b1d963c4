/**
 How code grows: what appending a piece or an alternative, inserting an operator and setting
 a next pointer do to code already emitted.
 */
module ReEmit {
  import opened ReSyntax
  import opened ReCode

  lemma HasMiddle(a: seq<nat>, w: seq<nat>, b: seq<nat>)
    ensures Has(a + w + b, |a|, w)
  {
  }

  lemma HasEnd(a: seq<nat>, w: seq<nat>)
    ensures Has(a + w, |a|, w)
  {
  }

  /** x, with something after it, is linked to what comes k bytes after it. */
  lemma LinkOne(a: seq<nat>, x: Re, b: seq<nat>, k: nat)
    ensures var w := a + Enc(x, -1) + b;
            Chain(w, |a|, |a| + Exit(x)) && |a| + Exit(x) + 2 < |w| && w[|a| + Exit(x)] != BACK
            && Next(w, |a| + Exit(x)) == -1
            && SetOff(w, |a| + Exit(x), Size(x) - Exit(x) + k) == a + Enc(x, k) + b
  {
    hide Enc, Exit, Size, Chain, Next, SetOff;
    HasMiddle(a, Enc(x, -1), b);
    EncChain(a + Enc(x, -1) + b, |a|, x, -1);
    OpenEnd(a + Enc(x, -1) + b, |a|, x);
    EncPatched(x, k);
    PatchMiddle(a, Enc(x, -1), b, Exit(x), Size(x) - Exit(x) + k);
  }

  /** The exit of code that is not linked to anything yet. */
  lemma OpenEnd(c: seq<nat>, p: nat, x: Re)
    requires Has(c, p, Enc(x, -1))
    ensures p + Exit(x) + 2 < |c| && c[p + Exit(x)] != BACK && Next(c, p + Exit(x)) == -1
  {
    hide Has, Node, Enc, Next, Size, Exit, ExitOp;
    ExitNode(c, p, x, -1);
    NextOf(c, p + Exit(x), ExitOp(x), 0);
  }

  // ---- Pieces ----

  lemma {:induction false} PiecesSnoc(ps: seq<Re>, x: Re, k: int)
    requires ps != []
    ensures EncPieces(ps + [x], k) == EncPieces(ps, 0) + Enc(x, k)
    ensures SizePieces(ps + [x]) == SizePieces(ps) + Size(x)
    decreases |ps|
  {
    hide Enc, Size;
    var v := ps + [x];
    assert v[1..] == ps[1..] + [x];
    if |ps| == 1 {
      assert v[1..] == [x];
      assert EncPieces([x], k) == Enc(x, k);
      assert ps[1..] == [];
    } else {
      PiecesSnoc(ps[1..], x, k);
      assert Enc(ps[0], 0) + (EncPieces(ps[1..], 0) + Enc(x, k)) == Enc(ps[0], 0) + EncPieces(ps[1..], 0) + Enc(x, k);
    }
  }

  /** A branch body, with something after it, is linked to what comes k bytes after it. */
  lemma LinkBody(a: seq<nat>, ps: seq<Re>, b: seq<nat>, k: nat)
    ensures var w := a + EncBody(ps, -1) + b;
            Chain(w, |a|, |a| + ExitBody(ps)) && |a| + ExitBody(ps) + 2 < |w| && w[|a| + ExitBody(ps)] != BACK
            && Next(w, |a| + ExitBody(ps)) == -1
            && SetOff(w, |a| + ExitBody(ps), SizeBody(ps) - ExitBody(ps) + k) == a + EncBody(ps, k) + b
  {
    hide EncBody, ExitBody, SizeBody, SetOff, Chain, Next;
    HasMiddle(a, EncBody(ps, -1), b);
    BodyPatched(ps, k);
    PatchMiddle(a, EncBody(ps, -1), b, ExitBody(ps), SizeBody(ps) - ExitBody(ps) + k);
    OpenBody(a + EncBody(ps, -1) + b, |a|, ps);
  }

  lemma OpenBody(c: seq<nat>, p: nat, ps: seq<Re>)
    requires Has(c, p, EncBody(ps, -1))
    ensures Chain(c, p, p + ExitBody(ps)) && p + ExitBody(ps) + 2 < |c|
    ensures c[p + ExitBody(ps)] != BACK && Next(c, p + ExitBody(ps)) == -1
  {
    hide Has, Node, Next, Enc;
    if ps == [] {
      NextOf(c, p, NOTHING, 0);
    } else {
      PiecesChain(c, p, ps, -1);
      OpenPieces(c, p, ps);
    }
  }

  lemma {:induction false} OpenPieces(c: seq<nat>, p: nat, ps: seq<Re>)
    requires ps != [] && Has(c, p, EncPieces(ps, -1))
    ensures p + ExitPieces(ps) + 2 < |c| && c[p + ExitPieces(ps)] != BACK && Next(c, p + ExitPieces(ps)) == -1
    decreases |ps|
  {
    hide Has, Enc, Next, Exit, Size;
    if |ps| == 1 {
      OpenEnd(c, p, ps[0]);
    } else {
      HasParts(c, p, Enc(ps[0], 0), EncPieces(ps[1..], -1));
      OpenPieces(c, p + Size(ps[0]), ps[1..]);
    }
  }

  // ---- Alternatives ----

  lemma {:induction false} SizeAltsCat(a: seq<Branch>, b: seq<Branch>)
    ensures SizeAlts(a + b) == SizeAlts(a) + SizeAlts(b)
    decreases |a|
  {
    hide SizeBody;
    if a == [] { assert a + b == b; } else { assert (a + b)[1..] == a[1..] + b; SizeAltsCat(a[1..], b); }
  }

  function Min(m: nat, n: nat): nat { if m < n then m else n }

  function Minus(m: nat, n: nat): nat { if m < n then 0 else m - n }

  lemma AltsForm(bs: seq<Branch>, nx: int, t: nat, n: nat)
    requires bs != []
    ensures EncAlts(bs, nx, t, n)
            == EncBranch(bs[0], if |bs| == 1 then nx else 0, if n > 0 then SizeAlts(bs[1..]) + t else -1)
               + EncAlts(bs[1..], nx, t, if n > 0 then n - 1 else 0)
  {
    hide EncBranch;
  }

  lemma AltsCons(b: Branch, bs: seq<Branch>, nx: int, t: nat, n: nat)
    ensures EncAlts([b] + bs, nx, t, n)
            == EncBranch(b, if bs == [] then nx else 0, if n > 0 then SizeAlts(bs) + t else -1)
               + EncAlts(bs, nx, t, if n > 0 then n - 1 else 0)
  {
    hide EncBranch, EncAlts, SizeAlts;
    var v := [b] + bs;
    assert v[0] == b && v[1..] == bs;
    AltsForm(v, nx, t, n);
  }

  /** The code of a choice, cut between two of its branches. */
  lemma {:induction false} AltsCut(a: seq<Branch>, b: seq<Branch>, nx: int, t: nat, n: nat)
    requires b != []
    ensures EncAlts(a + b, nx, t, n) == EncAlts(a, 0, SizeAlts(b) + t, Min(n, |a|)) + EncAlts(b, nx, t, Minus(n, |a|))
    decreases |a|
  {
    hide EncAlts, SizeAlts;
    if a == [] {
      assert a + b == b;
      NoAlts(0, SizeAlts(b) + t);
      assert [] + EncAlts(b, nx, t, n) == EncAlts(b, nx, t, n);
    } else {
      var h, r := a[0], a[1..];
      assert a == [h] + r;
      Regroup(h, r, b);
      AltsCut(r, b, nx, t, if n > 0 then n - 1 else 0);
      CutCons(h, r, b, nx, t, n);
    }
  }

  lemma NoAlts(nx: int, t: nat)
    ensures EncAlts([], nx, t, 0) == []
  {
  }

  lemma Regroup(h: Branch, r: seq<Branch>, b: seq<Branch>)
    ensures [h] + r + b == [h] + (r + b)
  {
  }

  lemma CutCons(h: Branch, a: seq<Branch>, b: seq<Branch>, nx: int, t: nat, n: nat)
    requires b != []
    requires var n' := if n > 0 then n - 1 else 0;
             EncAlts(a + b, nx, t, n') == EncAlts(a, 0, SizeAlts(b) + t, Min(n', |a|)) + EncAlts(b, nx, t,
                 Minus(n', |a|))
    ensures EncAlts([h] + (a + b), nx, t, n)
            == EncAlts([h] + a, 0, SizeAlts(b) + t, Min(n, |a| + 1)) + EncAlts(b, nx, t, Minus(n, |a| + 1))
  {
    hide EncAlts, EncBranch, SizeAlts;
    var n', m := if n > 0 then n - 1 else 0, Min(n, |a| + 1);
    SizeAltsCat(a, b);
    AltsCons(h, a + b, nx, t, n);
    AltsCons(h, a, 0, SizeAlts(b) + t, m);
    Cat(EncBranch(h, 0, if n > 0 then SizeAlts(a) + SizeAlts(b) + t else -1),
        EncAlts(a, 0, SizeAlts(b) + t, Min(n', |a|)), EncAlts(b, nx, t, Minus(n', |a|)));
  }

  lemma Cat(a: seq<nat>, b: seq<nat>, c: seq<nat>)
    ensures a + (b + c) == a + b + c
  {
  }

  /** Where the last branch of a choice starts. */
  function LastAt(bs: seq<Branch>): nat
    requires bs != []
  {
    SizeAlts(bs[..|bs| - 1])
  }

  /** A node in the middle of some code: what it says, and setting its offset. */
  lemma NodeIn(a: seq<nat>, op: nat, off: nat, b: seq<nat>, off': nat)
    ensures var w := a + (Node(op, off) + b);
            && |a| + 2 < |w| && w[|a|] == op
            && Next(w, |a|) == (if off == 0 then -1 else if op == BACK then |a| - off else |a| + off)
            && SetOff(w, |a|, off') == a + (Node(op, off') + b)
  {
    var w := a + (Node(op, off) + b);
    assert Has(w, |a|, Node(op, off));
    NextOf(w, |a|, op, off);
    PatchNode(op, off, off');
    PatchFirst(Node(op, off), b, 0, off');
    PatchSecond(a, Node(op, off) + b, 0, off');
  }

  lemma LastForm(bs: seq<Branch>, k: int)
    requires bs != []
    ensures var pre, last := bs[..|bs| - 1], bs[|bs| - 1];
            && SizeAlts(bs) == LastAt(bs) + 3 + SizeBody(last.ps)
            && EncAlts(bs, k, 0, 0)
               == EncAlts(pre, 0, SizeAlts([last]),
                   0) + (Node(BRANCH, Off(3 + SizeBody(last.ps), k)) + EncBody(last.ps, -1))
  {
    hide EncAlts, EncBody, SizeBody, SizeAlts;
    var pre, last := bs[..|bs| - 1], bs[|bs| - 1];
    assert bs == pre + [last];
    AltsCut(pre, [last], k, 0, 0);
    SizeAltsCat(pre, [last]);
    LastBranch(last, k);
  }

  /** The last branch of a choice, with something after it, is linked to what comes k bytes
      after it. */
  lemma LinkLast(a: seq<nat>, bs: seq<Branch>, b: seq<nat>, k: nat)
    requires bs != []
    ensures var w := a + EncAlts(bs, -1, 0, 0) + b;
            var z := |a| + LastAt(bs);
            && Chain(w, |a|, z) && z + 2 < |w| && w[z] != BACK && Next(w, z) == -1
            && LastAt(bs) < SizeAlts(bs)
            && SetOff(w, z, SizeAlts(bs) - LastAt(bs) + k) == a + EncAlts(bs, k, 0, 0) + b
  {
    hide EncAlts, EncBody, Chain, Next, SetOff, SizeBody, SizeAlts, Node;
    var pre, last := bs[..|bs| - 1], bs[|bs| - 1];
    LastForm(bs, -1);
    LastForm(bs, k);
    var head, body, n := EncAlts(pre, 0, SizeAlts([last]), 0), EncBody(last.ps, -1), 3 + SizeBody(last.ps);
    var w := a + EncAlts(bs, -1, 0, 0) + b;
    CatFive(a, head, Node(BRANCH, 0), body, b);
    CatFive(a, head, Node(BRANCH, n + k), body, b);
    NodeIn(a + head, BRANCH, 0, body + b, n + k);
    assert Has(w, |a|, head) by { HasMiddle(a, head, Node(BRANCH, 0) + (body + b)); }
    AltsChain(w, |a|, pre, SizeAlts([last]), 0);
  }

  lemma CatFive(a: seq<nat>, h: seq<nat>, n: seq<nat>, y: seq<nat>, b: seq<nat>)
    ensures a + (h + (n + y)) + b == (a + h) + (n + (y + b))
    ensures a + (h + (n + y)) + b == a + h + (n + (y + b))
  {
  }

  lemma LastBranch(b: Branch, nx: int)
    ensures EncAlts([b], nx, 0, 0) == Node(BRANCH, Off(3 + SizeBody(b.ps), nx)) + EncBody(b.ps, -1)
    ensures SizeAlts([b]) == 3 + SizeBody(b.ps)
  {
    assert [b][1..] == [];
    assert EncAlts([b][1..], nx, 0, 0) == [];
    assert SizeAlts([b][1..]) == 0;
  }

  /** Adding a branch to a choice whose last branch has been linked to it. */
  lemma AltsSnoc(bs: seq<Branch>, b: Branch)
    requires bs != []
    ensures EncAlts(bs + [b], -1, 0, 0) == EncAlts(bs, 0, 0, 0) + EncBranch(b, -1, -1)
    ensures SizeAlts(bs + [b]) == SizeAlts(bs) + 3 + SizeBody(b.ps)
  {
    hide EncAlts, SizeAlts, EncBody, SizeBody;
    AltsCut(bs, [b], -1, 0, 0);
    SizeAltsCat(bs, [b]);
    LastBranch(b, -1);
    NoTails(bs, SizeAlts([b]));
  }

  /** While no body is linked, where they will lead does not matter. */
  lemma {:induction false} NoTails(bs: seq<Branch>, t: nat)
    ensures EncAlts(bs, 0, t, 0) == EncAlts(bs, 0, 0, 0)
    decreases |bs|
  {
    hide EncBranch;
    if bs != [] { NoTails(bs[1..], t); }
  }

  /** The body of branch n is linked to what follows the choice. */
  lemma LinkNth(a: seq<nat>, bs: seq<Branch>, n: nat, e: seq<nat>)
    requires n < |bs|
    ensures var w := a + EncAlts(bs, 0, 0, n) + e;
            var p := |a| + SizeAlts(bs[..n]);
            var ps := bs[n].ps;
            var z := p + 3 + ExitBody(ps);
            && p + 2 < |w| && w[p] == BRANCH && Next(w, p) == |a| + SizeAlts(bs[..n + 1])
            && Chain(w, p + 3, z) && z + 2 < |w| && w[z] != BACK && Next(w, z) == -1
            && z < |a| + SizeAlts(bs)
            && SetOff(w, z, |a| + SizeAlts(bs) - z) == a + EncAlts(bs, 0, 0, n + 1) + e
  {
    hide EncAlts, EncBody, Chain, Next, SetOff, SizeBody, SizeAlts, ExitBody, Node;
    var pre, rest, b := bs[..n], bs[n + 1..], bs[n];
    NthForm(bs, n, n);
    NthForm(bs, n, n + 1);
    var head, tail, t := EncAlts(pre, 0, SizeAlts([b] + rest), n), EncAlts(rest, 0, 0, 0), SizeAlts(rest);
    var node := Node(BRANCH, 3 + SizeBody(b.ps));
    var w := a + EncAlts(bs, 0, 0, n) + e;
    CatSix(a, head, node, EncBody(b.ps, -1), tail, e);
    CatSix(a, head, node, EncBody(b.ps, t), tail, e);
    LinkBody(a + head + node, b.ps, tail + e, t);
    NodeIn(a + head, BRANCH, 3 + SizeBody(b.ps), EncBody(b.ps, -1) + (tail + e), 0);
  }

  lemma CatSix(a: seq<nat>, h: seq<nat>, n: seq<nat>, y: seq<nat>, t: seq<nat>, e: seq<nat>)
    ensures a + (h + (n + y + t)) + e == (a + h + n) + y + (t + e)
    ensures a + (h + (n + y + t)) + e == (a + h) + (n + (y + (t + e)))
  {
  }

  /** Branch n of a choice of which the first m bodies are linked. */
  lemma NthForm(bs: seq<Branch>, n: nat, m: nat)
    requires n < |bs| && n <= m <= n + 1
    ensures var pre, rest, b := bs[..n], bs[n + 1..], bs[n];
            && SizeAlts(bs) == SizeAlts(pre) + 3 + SizeBody(b.ps) + SizeAlts(rest)
            && SizeAlts(bs[..n + 1]) == SizeAlts(pre) + 3 + SizeBody(b.ps)
            && EncAlts(bs, 0, 0, m)
               == EncAlts(pre, 0, SizeAlts([b] + rest), n)
                  + (Node(BRANCH, 3 + SizeBody(b.ps)) + EncBody(b.ps, if m == n then -1
                      else SizeAlts(rest)) + EncAlts(rest, 0, 0, 0))
  {
    hide EncAlts, EncBody, SizeBody, SizeAlts, Node;
    var pre, rest, b := bs[..n], bs[n + 1..], bs[n];
    var v := [b] + rest;
    assert bs == pre + v && bs[..n + 1] == pre + [b] && v[1..] == rest && v[0] == b;
    AltsCut(pre, v, 0, 0, m);
    SizeAltsCat(pre, v);
    SizeAltsCat([b], rest);
    SizeAltsCat(pre, [b]);
    LastBranch(b, 0);
    AltsForm(v, 0, 0, m - n);
  }

  // ---- The looped forms ----

  /** A node is where the chain from p ends and can be set to lead to val. */
  ghost predicate Settable(c: seq<nat>, p: nat, val: nat, z: nat) {
    Chain(c, p, z) && z + 2 < |c| && Next(c, z) == -1 && val <= |c| && if c[z] == BACK then val < z else z < val
  }

  /** What regtail does: the node z at the end of the chain is made to lead to val. */
  function Tail(c: seq<nat>, val: nat, z: nat): seq<nat>
    requires z + 2 < |c| && if c[z] == BACK then val < z else z < val
  {
    SetOff(c, z, if c[z] == BACK then z - val else val - z)
  }

  lemma ChainSelf(c: seq<nat>, p: nat)
    ensures Chain(c, p, p)
  {
  }

  /** Through x, which is linked to what follows it. */
  lemma ChainThrough(c: seq<nat>, p: nat, x: Re)
    requires Has(c, p, Enc(x, 0))
    ensures Chain(c, p, p + Size(x))
  {
    hide Has, Enc, Next, Size, Exit;
    EncChain(c, p, x, 0);
    ExitNext(c, p, x, 0);
    ChainSelf(c, p + Size(x));
    ChainOn(c, p + Exit(x), p + Size(x), p + Size(x));
    ChainTrans(c, p, p + Exit(x), p + Size(x));
  }

  /** Setting the offset of a node of the last, open kind. */
  lemma SetNode(a: seq<nat>, op: nat, b: seq<nat>, val: nat)
    requires op != BACK && |a| < val <= |a| + 3 + |b|
    ensures var c := a + (Node(op, 0) + b);
            Settable(c, |a|, val, |a|) && Tail(c, val, |a|) == a + (Node(op, val - |a|) + b)
  {
    hide Node, SetOff, Next;
    NodeIn(a, op, 0, b, val - |a|);
  }

  /** Linking the end of x to what comes k bytes after it. */
  lemma SetOne(a: seq<nat>, x: Re, b: seq<nat>, k: nat)
    requires k <= |b|
    ensures var c, val, z := a + Enc(x, -1) + b, |a| + Size(x) + k, |a| + Exit(x);
            Settable(c, |a|, val, z) && Tail(c, val, z) == a + Enc(x, k) + b
  {
    hide Enc, Exit, Size, Chain, Next, SetOff;
    LinkOne(a, x, b, k);
  }

  /** x*: the body is linked to the BACK node, and that back to the start. */
  lemma StarBack(a: seq<nat>, y: Re)
    ensures var c, z := a + Node(BRANCH, 0) + Enc(y, 0) + Node(BACK, 0), |a| + 3 + Size(y);
            Settable(c, |a| + 3, |a|, z)
            && Tail(c, |a|, z) == a + Node(BRANCH, 0) + Enc(y, 0) + Node(BACK, 3 + Size(y))
  {
    hide Enc, Chain, Next, SetOff, Size, Node;
    var b := a + Node(BRANCH, 0);
    var c, z := b + Enc(y, 0) + Node(BACK, 0), |a| + 3 + Size(y);
    HasMiddle(b, Enc(y, 0), Node(BACK, 0));
    ChainThrough(c, |b|, y);
    assert c == (b + Enc(y, 0)) + (Node(BACK, 0) + []) && Node(BACK, 3 + Size(y)) + [] == Node(BACK, 3 + Size(y));
    NodeIn(b + Enc(y, 0), BACK, 0, [], 3 + Size(y));
  }

  /** x* and x?: the first branch is linked to the second. */
  lemma BranchOn(a: seq<nat>, w: seq<nat>)
    ensures var c := a + Node(BRANCH, 0) + w + Node(BRANCH, 0);
            Settable(c, |a|, |a| + 3 + |w|, |a|)
            && Tail(c, |a| + 3 + |w|, |a|) == a + Node(BRANCH, 3 + |w|) + w + Node(BRANCH, 0)
  {
    hide Chain, Next, SetOff, Node;
    SetNode(a, BRANCH, w + Node(BRANCH, 0), |a| + 3 + |w|);
    assert a + Node(BRANCH, 0) + w + Node(BRANCH, 0) == a + (Node(BRANCH, 0) + (w + Node(BRANCH, 0)));
    assert a + Node(BRANCH, 3 + |w|) + w + Node(BRANCH, 0) == a + (Node(BRANCH, 3 + |w|) + (w + Node(BRANCH, 0)));
  }

  /** x* and x?: the second branch is linked to the NOTHING node. */
  lemma BranchEnd(a: seq<nat>, w: seq<nat>)
    ensures var c, z := a + Node(BRANCH, 3 + |w|) + w + Node(BRANCH, 0) + Node(NOTHING, 0), |a| + 3 + |w|;
            Settable(c, |a|, z + 3, z)
            && Tail(c, z + 3, z) == a + Node(BRANCH, 3 + |w|) + w + (Node(BRANCH, 3) + Node(NOTHING, 0))
  {
    hide Chain, Next, SetOff, Node;
    var b := a + Node(BRANCH, 3 + |w|) + w;
    var c := b + Node(BRANCH, 0) + Node(NOTHING, 0);
    SetNode(b, BRANCH, Node(NOTHING, 0), |b| + 3);
    assert c == b + (Node(BRANCH, 0) + Node(NOTHING, 0));
    assert c == a + (Node(BRANCH, 3 + |w|) + (w + Node(BRANCH, 0) + Node(NOTHING, 0)));
    NodeIn(a, BRANCH, 3 + |w|, w + Node(BRANCH, 0) + Node(NOTHING, 0), 0);
    ChainSelf(c, |b|);
    ChainOn(c, |a|, |b|, |b|);
  }

  /** x+: the BACK node leads to the start of x. */
  lemma PlusBack(a: seq<nat>, y: Re)
    ensures var c, z := a + Enc(y, 0) + Node(BRANCH, 0) + Node(BACK, 0), |a| + Size(y) + 3;
            Settable(c, z, |a|, z)
            && Tail(c, |a|, z) == a + Enc(y, 0) + Node(BRANCH, 0) + Node(BACK, 3 + Size(y))
  {
    hide Enc, Next, SetOff, Size, Node;
    var b := a + Enc(y, 0) + Node(BRANCH, 0);
    assert b + Node(BACK, 0) == b + (Node(BACK, 0) + []) && Node(BACK, 3 + Size(y)) + [] == Node(BACK, 3 + Size(y));
    NodeIn(b, BACK, 0, [], 3 + Size(y));
  }

  /** x+: the branch after x is linked to the second one. */
  lemma PlusOn(a: seq<nat>, y: Re)
    ensures var c, z := a + Enc(y, 0) + Node(BRANCH, 0) + Node(BACK, 3 + Size(y)) + Node(BRANCH, 0), |a| + Size(y);
            Settable(c, z, z + 6, z)
            && Tail(c, z + 6, z) == a + Enc(y, 0) + Node(BRANCH, 6) + Node(BACK, 3 + Size(y)) + Node(BRANCH, 0)
  {
    hide Enc, Next, SetOff, Size, Node;
    var b, r := a + Enc(y, 0), Node(BACK, 3 + Size(y)) + Node(BRANCH, 0);
    SetNode(b, BRANCH, r, |b| + 6);
    assert b + Node(BRANCH, 0) + Node(BACK, 3 + Size(y)) + Node(BRANCH, 0) == b + (Node(BRANCH, 0) + r);
    assert b + Node(BRANCH, 6) + Node(BACK, 3 + Size(y)) + Node(BRANCH, 0) == b + (Node(BRANCH, 6) + r);
  }

  /** x+: the second branch is linked to the NOTHING node. */
  lemma SixCat(b: seq<nat>, n0: seq<nat>, n1: seq<nat>, n2: seq<nat>, n3: seq<nat>)
    ensures b + n0 + n1 + n2 + n3 == b + n0 + n1 + (n2 + n3) == b + (n0 + (n1 + n2 + n3))
  {
  }

  lemma PlusEnd(a: seq<nat>, y: Re)
    requires !Simple(y)
    ensures var c := a + Enc(y, 0) + Node(BRANCH, 6) + Node(BACK, 3 + Size(y)) + Node(BRANCH, 0) + Node(NOTHING, 0);
            var z := |a| + Size(y) + 6;
            Settable(c, |a|, z + 3, z) && Tail(c, z + 3, z) == a + Enc(Plus(y), -1)
  {
    hide Enc, Next, SetOff, Size, Node, Chain;
    PlusForm(y, -1);
    var b := a + Enc(y, 0);
    var r := Node(BACK, 3 + Size(y)) + Node(BRANCH, 0) + Node(NOTHING, 0);
    var d := b + Node(BRANCH, 6) + Node(BACK, 3 + Size(y));
    var c, z := d + Node(BRANCH, 0) + Node(NOTHING, 0), |a| + Size(y) + 6;
    SetNode(d, BRANCH, Node(NOTHING, 0), |d| + 3);
    SixCat(b, Node(BRANCH, 6), Node(BACK, 3 + Size(y)), Node(BRANCH, 0), Node(NOTHING, 0));
    NodeIn(b, BRANCH, 6, r, 0);
    ChainSelf(c, z);
    ChainOn(c, |b|, z, z);
    HasMiddle(a, Enc(y, 0), Node(BRANCH, 6) + r);
    ChainThrough(c, |a|, y);
    ChainTrans(c, |a|, |b|, z);
    PlusCat(a, Enc(y, 0), Node(BRANCH, 6), Node(BACK, 3 + Size(y)), Node(BRANCH, 3), Node(NOTHING, 0));
  }

  lemma PlusCat(a: seq<nat>, e: seq<nat>, b1: seq<nat>, b2: seq<nat>, b3: seq<nat>, b4: seq<nat>)
    ensures a + e + b1 + b2 + (b3 + b4) == a + (e + (b1 + b2 + b3 + b4))
  {
  }
}
