/**
 The compiled form: a node is an opcode and a two-byte offset to the next node, followed by
 its operand.  What the code of each syntax tree is, and how setting the next pointer at the
 end of a chain changes it.
 */
module ReCode {
  import opened ReSyntax

  const MAGIC: nat := 156
  const END: nat := 0
  const BOL: nat := 1
  const EOL: nat := 2
  const ANY: nat := 3
  const ANYOF: nat := 4
  const ANYBUT: nat := 5
  const BRANCH: nat := 6
  const BACK: nat := 7
  const EXACTLY: nat := 8
  const NOTHING: nat := 9
  const STAR: nat := 10
  const PLUS: nat := 11
  const OPEN: nat := 20
  const CLOSE: nat := 30

  function Node(op: nat, off: nat): (r: seq<nat>)
    ensures |r| == 3
  {
    [op, off / 256, off % 256]
  }

  /** An offset of 0 is a null pointer. */
  function Next(c: seq<nat>, p: nat): (r: int)
    requires p + 2 < |c|
  {
    var off := c[p + 1] * 256 + c[p + 2];
    if off == 0 then -1 else if c[p] == BACK then p - off else p + off
  }

  function SetOff(c: seq<nat>, p: nat, off: nat): (r: seq<nat>)
    requires p + 2 < |c|
    ensures |r| == |c|
  {
    c[p + 1 := off / 256][p + 2 := off % 256]
  }

  // ---- Sizes ----

  function Size(x: Re): (n: nat)
    ensures n >= 3
  {
    match x
    case Bol => 3
    case Eol => 3
    case AnyChar => 3
    case Lit(str) => 3 + |str| + 1
    case Class(_, chars) => 3 + |chars| + 1
    case Group(_, alts) => 3 + SizeAlts(alts) + 3
    case Star(y) => if Simple(y) then 3 + Size(y) else 3 + Size(y) + 9
    case Plus(y) => if Simple(y) then 3 + Size(y) else Size(y) + 12
    case Opt(y) => 3 + Size(y) + 6
  }

  function SizePieces(ps: seq<Re>): nat { if ps == [] then 0 else Size(ps[0]) + SizePieces(ps[1..]) }

  function SizeBody(ps: seq<Re>): (n: nat)
    ensures n >= 3
  {
    if ps == [] then 3 else Size(ps[0]) + SizePieces(ps[1..])
  }

  function SizeAlts(bs: seq<Branch>): (n: nat)
    ensures bs != [] ==> n >= 6
  {
    if bs == [] then 0 else 3 + SizeBody(bs[0].ps) + SizeAlts(bs[1..])
  }

  // ---- Code ----

  /** The offset of a node n bytes before the end of its code, when what follows is k bytes
      after that end, or not known yet if k is negative. */
  function Off(n: nat, k: int): nat { if k < 0 then 0 else n + k }

  /** The code of x; its last next pointer leads k bytes past its end. */
  function Enc(x: Re, k: int): (c: seq<nat>)
    ensures |c| == Size(x)
  {
    match x
    case Bol => Node(BOL, Off(3, k))
    case Eol => Node(EOL, Off(3, k))
    case AnyChar => Node(ANY, Off(3, k))
    case Lit(str) => Node(EXACTLY, Off(4 + |str|, k)) + str + [0]
    case Class(neg, chars) => Node(if neg then ANYBUT else ANYOF, Off(4 + |chars|, k)) + chars + [0]
    case Group(n, alts) => Node(OPEN + n, 3) + EncAlts(alts, 0, 0, |alts|) + Node(CLOSE + n, Off(3, k))
    case Star(y) =>
      if Simple(y) then Node(STAR, Off(3 + Size(y), k)) + Enc(y, -1)
      else StarCode(Enc(y, 0), k)
    case Plus(y) =>
      if Simple(y) then Node(PLUS, Off(3 + Size(y), k)) + Enc(y, -1)
      else PlusCode(Enc(y, 0), k)
    case Opt(y) => OptCode(Enc(y, 3), k)
  }

  /** The code of y*, y+ and y? around the code of y. */
  function StarCode(e: seq<nat>, k: int): (c: seq<nat>)
    ensures |c| == |e| + 12
  {
    Node(BRANCH, 6 + |e|) + e + (Node(BACK, 3 + |e|) + Node(BRANCH, 3) + Node(NOTHING, Off(3, k)))
  }

  function PlusCode(e: seq<nat>, k: int): (c: seq<nat>)
    ensures |c| == |e| + 12
  {
    e + (Node(BRANCH, 6) + Node(BACK, 3 + |e|) + Node(BRANCH, 3) + Node(NOTHING, Off(3, k)))
  }

  function OptCode(e: seq<nat>, k: int): (c: seq<nat>)
    ensures |c| == |e| + 9
  {
    Node(BRANCH, 3 + |e|) + e + (Node(BRANCH, 3) + Node(NOTHING, Off(3, k)))
  }

  function EncPieces(ps: seq<Re>, k: int): (c: seq<nat>)
    requires ps != []
    ensures |c| == Size(ps[0]) + SizePieces(ps[1..])
    decreases ps, 0
  {
    if |ps| == 1 then Enc(ps[0], k) else Enc(ps[0], 0) + EncPieces(ps[1..], k)
  }

  function EncBody(ps: seq<Re>, k: int): (c: seq<nat>)
    ensures |c| == SizeBody(ps)
    decreases ps, 1
  {
    if ps == [] then Node(NOTHING, Off(3, k)) else EncPieces(ps, k)
  }

  /** A branch: nx leads to the next branch, t to what follows the whole choice. */
  function EncBranch(b: Branch, nx: int, t: int): (c: seq<nat>)
    ensures |c| == 3 + SizeBody(b.ps)
  {
    Node(BRANCH, Off(3 + SizeBody(b.ps), nx)) + EncBody(b.ps, t)
  }

  /** A choice whose last branch leads to nx; the first n bodies have been linked to t. */
  function EncAlts(bs: seq<Branch>, nx: int, t: nat, n: nat): (c: seq<nat>)
    ensures |c| == SizeAlts(bs)
  {
    if bs == [] then [] else
    EncBranch(bs[0], if |bs| == 1 then nx else 0, if n > 0 then SizeAlts(bs[1..]) + t else -1)
    + EncAlts(bs[1..], nx, t, if n > 0 then n - 1 else 0)
  }

  /** A whole program. */
  function Program(bs: seq<Branch>): (c: seq<nat>)
    ensures |c| == 1 + SizeAlts(bs) + 3
  {
    [MAGIC] + EncAlts(bs, 0, 0, |bs|) + Node(END, 0)
  }

  // ---- Code inside a larger program ----

  ghost predicate Has(c: seq<nat>, p: nat, w: seq<nat>) { p + |w| <= |c| && c[p..p + |w|] == w }

  lemma HasParts(c: seq<nat>, p: nat, a: seq<nat>, b: seq<nat>)
    ensures Has(c, p, a + b) <==> Has(c, p, a) && Has(c, p + |a|, b)
  {
    var w := a + b;
    if Has(c, p, w) {
      assert c[p..p + |a|] == w[..|a|] && c[p + |a|..p + |a| + |b|] == w[|a|..];
    }
    if Has(c, p, a) && Has(c, p + |a|, b) {
      assert c[p..p + |w|] == c[p..p + |a|] + c[p + |a|..p + |a| + |b|];
    }
  }

  lemma HasThree(c: seq<nat>, p: nat, a: seq<nat>, w: seq<nat>, b: seq<nat>)
    ensures Has(c, p, a + w + b) <==> Has(c, p, a) && Has(c, p + |a|, w) && Has(c, p + |a| + |w|, b)
  {
    HasParts(c, p, a + w, b);
    HasParts(c, p, a, w);
  }

  lemma HasFive(c: seq<nat>, p: nat, a: seq<nat>, w: seq<nat>, b1: seq<nat>, b2: seq<nat>, b3: seq<nat>)
    requires Has(c, p, a + w + (b1 + b2 + b3))
    ensures Has(c, p, a) && Has(c, p + |a|, w) && Has(c, p + |a| + |w|, b1)
    ensures Has(c, p + |a| + |w| + |b1|, b2) && Has(c, p + |a| + |w| + |b1| + |b2|, b3)
  {
    hide Has;
    HasThree(c, p, a, w, b1 + b2 + b3);
    HasThree(c, p + |a| + |w|, b1, b2, b3);
  }

  lemma NextOf(c: seq<nat>, p: nat, op: nat, off: nat)
    requires Has(c, p, Node(op, off))
    ensures p + 2 < |c| && c[p] == op
    ensures Next(c, p) == if off == 0 then -1 else if op == BACK then p - off else p + off
  {
    var w := Node(op, off);
    assert c[p] == c[p..p + 3][0] && c[p + 1] == c[p..p + 3][1] && c[p + 2] == c[p..p + 3][2];
  }

  lemma PatchNode(op: nat, off: nat, off': nat)
    ensures SetOff(Node(op, off), 0, off') == Node(op, off')
  {
  }

  lemma PatchFirst(a: seq<nat>, b: seq<nat>, i: nat, off: nat)
    requires i + 2 < |a|
    ensures SetOff(a + b, i, off) == SetOff(a, i, off) + b
  {
  }

  lemma PatchSecond(a: seq<nat>, b: seq<nat>, i: nat, off: nat)
    requires i + 2 < |b|
    ensures SetOff(a + b, |a| + i, off) == a + SetOff(b, i, off)
  {
  }

  // ---- The end of a chain ----

  /** Where, in the code of x, the node is whose next pointer leads out of it. */
  function Exit(x: Re): (z: nat)
    ensures z + 3 <= Size(x)
  {
    match x
    case Group(_, _) => Size(x) - 3
    case Star(y) => if Simple(y) then 0 else Size(x) - 3
    case Plus(y) => if Simple(y) then 0 else Size(x) - 3
    case Opt(y) => Size(x) - 3
    case _ => 0
  }

  function ExitPieces(ps: seq<Re>): (z: nat)
    requires ps != []
    ensures z + 3 <= Size(ps[0]) + SizePieces(ps[1..])
  {
    if |ps| == 1 then Exit(ps[0]) else Size(ps[0]) + ExitPieces(ps[1..])
  }

  function ExitBody(ps: seq<Re>): (z: nat)
    ensures z + 3 <= SizeBody(ps)
  {
    if ps == [] then 0 else ExitPieces(ps)
  }

  /** The node at the exit of x, and the code before and behind it. */
  function ExitOp(x: Re): nat {
    match x
    case Bol => BOL
    case Eol => EOL
    case AnyChar => ANY
    case Lit(_) => EXACTLY
    case Class(neg, _) => if neg then ANYBUT else ANYOF
    case Group(n, _) => CLOSE + n
    case Star(y) => if Simple(y) then STAR else NOTHING
    case Plus(y) => if Simple(y) then PLUS else NOTHING
    case Opt(_) => NOTHING
  }

  function Front(x: Re): seq<nat> {
    match x
    case Group(n, alts) => Node(OPEN + n, 3) + EncAlts(alts, 0, 0, |alts|)
    case Star(y) =>
      if Simple(y) then [] else Node(BRANCH, 6 + Size(y)) + Enc(y, 0) + (Node(BACK, 3 + Size(y)) + Node(BRANCH, 3))
    case Plus(y) =>
      if Simple(y) then [] else Enc(y, 0) + (Node(BRANCH, 6) + Node(BACK, 3 + Size(y)) + Node(BRANCH, 3))
    case Opt(y) => Node(BRANCH, 3 + Size(y)) + Enc(y, 3) + Node(BRANCH, 3)
    case _ => []
  }

  function Behind(x: Re): seq<nat> {
    match x
    case Lit(str) => str + [0]
    case Class(_, chars) => chars + [0]
    case Star(y) => if Simple(y) then Enc(y, -1) else []
    case Plus(y) => if Simple(y) then Enc(y, -1) else []
    case _ => []
  }

  lemma TailAssoc(a: seq<nat>, b: seq<nat>, n: seq<nat>)
    ensures a + (b + n) == a + b + n + []
  {
  }

  lemma ExitForm(x: Re, k: int)
    ensures Enc(x, k) == Front(x) + Node(ExitOp(x), Off(Size(x) - Exit(x), k)) + Behind(x) && |Front(x)| == Exit(x)
  {
    hide Enc, Front, Node, Size, Exit, ExitOp, Behind, Off;
    match x
    case Star(y) => if Simple(y) { PlainForm(x, k); } else { StarExit(y, k); }
    case Plus(y) => if Simple(y) { PlainForm(x, k); } else { PlusExit(y, k); }
    case Opt(y) => OptExit(y, k);
    case _ => PlainForm(x, k);
  }

  lemma StarExit(y: Re, k: int)
    requires !Simple(y)
    ensures var x := Star(y);
            Enc(x, k) == Front(x) + Node(ExitOp(x), Off(Size(x) - Exit(x), k)) + Behind(x) && |Front(x)| == Exit(x)
  {
    hide Front, Behind, Size, Exit, ExitOp, Enc, Node, Off;
    StarFront(y);
    LoopEnds(Star(y));
    StarForm(y, k);
    TailAssoc(Node(BRANCH, 6 + Size(y)) + Enc(y, 0), Node(BACK, 3 + Size(y)) + Node(BRANCH, 3),
              Node(NOTHING, Off(3, k)));
  }

  lemma PlusExit(y: Re, k: int)
    requires !Simple(y)
    ensures var x := Plus(y);
            Enc(x, k) == Front(x) + Node(ExitOp(x), Off(Size(x) - Exit(x), k)) + Behind(x) && |Front(x)| == Exit(x)
  {
    hide Front, Behind, Size, Exit, ExitOp, Enc, Node, Off;
    PlusFront(y);
    LoopEnds(Plus(y));
    PlusForm(y, k);
    TailAssoc(Enc(y, 0), Node(BRANCH, 6) + Node(BACK, 3 + Size(y)) + Node(BRANCH, 3), Node(NOTHING, Off(3, k)));
  }

  lemma OptExit(y: Re, k: int)
    ensures var x := Opt(y);
            Enc(x, k) == Front(x) + Node(ExitOp(x), Off(Size(x) - Exit(x), k)) + Behind(x) && |Front(x)| == Exit(x)
  {
    hide Front, Behind, Size, Exit, ExitOp, Enc, Node, Off;
    OptFront(y);
    LoopEnds(Opt(y));
    OptForm(y, k);
    TailAssoc(Node(BRANCH, 3 + Size(y)) + Enc(y, 3), Node(BRANCH, 3), Node(NOTHING, Off(3, k)));
  }

  lemma StarFront(y: Re)
    requires !Simple(y)
    ensures Front(Star(y)) == Node(BRANCH, 6 + Size(y)) + Enc(y, 0) + (Node(BACK, 3 + Size(y)) + Node(BRANCH, 3))
  {
    hide Enc, Node, Size;
  }

  lemma PlusFront(y: Re)
    requires !Simple(y)
    ensures Front(Plus(y)) == Enc(y, 0) + (Node(BRANCH, 6) + Node(BACK, 3 + Size(y)) + Node(BRANCH, 3))
  {
    hide Enc, Node, Size;
  }

  lemma OptFront(y: Re)
    ensures Front(Opt(y)) == Node(BRANCH, 3 + Size(y)) + Enc(y, 3) + Node(BRANCH, 3)
  {
    hide Enc, Node, Size;
  }

  /** A loop or an option ends with a node NOTHING and nothing behind it. */
  lemma LoopEnds(x: Re)
    requires x.Opt? || ((x.Star? || x.Plus?) && !Simple(x.x))
    ensures ExitOp(x) == NOTHING && Behind(x) == [] && Size(x) - Exit(x) == 3 && |Front(x)| == Exit(x)
  {
    hide Node, EncAlts;
  }

  lemma PlainForm(x: Re, k: int)
    requires x.Star? || x.Plus? ==> Simple(x.x)
    requires !x.Opt?
    ensures Enc(x, k) == Front(x) + Node(ExitOp(x), Off(Size(x) - Exit(x), k)) + Behind(x) && |Front(x)| == Exit(x)
  {
    hide Node, EncAlts;
  }

  lemma PatchMiddle(a: seq<nat>, w: seq<nat>, b: seq<nat>, i: nat, off: nat)
    requires i + 2 < |w|
    ensures SetOff(a + w + b, |a| + i, off) == a + SetOff(w, i, off) + b
  {
    PatchFirst(a + w, b, |a| + i, off);
    PatchSecond(a, w, i, off);
  }

  /** Linking x to what comes k bytes after it changes the offset of its exit only. */
  lemma EncPatched(x: Re, k: nat)
    ensures Enc(x, k) == SetOff(Enc(x, -1), Exit(x), Size(x) - Exit(x) + k)
  {
    hide Node, Enc, SetOff, Front, Behind, Exit, Size, ExitOp;
    ExitForm(x, -1);
    ExitForm(x, k);
    PatchMiddle(Front(x), Node(ExitOp(x), 0), Behind(x), 0, Size(x) - Exit(x) + k);
    PatchNode(ExitOp(x), 0, Size(x) - Exit(x) + k);
  }

  lemma NotBack(x: Re)
    ensures ExitOp(x) != BACK
  {
  }

  /** The node at the exit of x, which is never a BACK node. */
  lemma ExitNode(c: seq<nat>, p: nat, x: Re, k: int)
    requires Has(c, p, Enc(x, k))
    ensures Has(c, p + Exit(x), Node(ExitOp(x), Off(Size(x) - Exit(x), k))) && ExitOp(x) != BACK
  {
    hide Node, Enc, Has, Front, Behind, Exit, Size, ExitOp;
    NotBack(x);
    ExitForm(x, k);
    HasThree(c, p, Front(x), Node(ExitOp(x), Off(Size(x) - Exit(x), k)), Behind(x));
  }

  lemma {:induction false} PiecesPatched(ps: seq<Re>, k: nat)
    requires ps != []
    ensures EncPieces(ps, k) == SetOff(EncPieces(ps, -1), ExitPieces(ps), SizeBody(ps) - ExitPieces(ps) + k)
  {
    hide Enc, Exit, Size, SetOff;
    if |ps| == 1 {
      EncPatched(ps[0], k);
    } else {
      PiecesPatched(ps[1..], k);
      PatchSecond(Enc(ps[0], 0), EncPieces(ps[1..], -1), ExitPieces(ps[1..]), SizeBody(ps) - ExitPieces(ps) + k);
    }
  }

  lemma BodyPatched(ps: seq<Re>, k: nat)
    ensures EncBody(ps, k) == SetOff(EncBody(ps, -1), ExitBody(ps), SizeBody(ps) - ExitBody(ps) + k)
  {
    if ps == [] { PatchNode(NOTHING, 0, 3 + k); } else { PiecesPatched(ps, k); }
  }

  /** Following next pointers from p leads to z. */
  ghost predicate Chain(c: seq<nat>, p: int, z: nat)
    decreases z - p
  {
    0 <= p <= z && (p == z || (p + 2 < |c| && p < Next(c, p) && Chain(c, Next(c, p), z)))
  }

  lemma {:induction false} ChainTrans(c: seq<nat>, p: int, q: nat, z: nat)
    requires Chain(c, p, q) && Chain(c, q, z)
    ensures Chain(c, p, z)
    decreases q - p
  {
    if p != q { ChainTrans(c, Next(c, p), q, z); }
  }

  lemma ChainStep(c: seq<nat>, p: nat, op: nat, off: nat, z: nat)
    requires Has(c, p, Node(op, off)) && off > 0 && op != BACK && Chain(c, p + off, z)
    ensures Chain(c, p, z)
  {
    NextOf(c, p, op, off);
  }

  // ---- The parts of each form ----

  lemma StarForm(y: Re, k: int)
    requires !Simple(y)
    ensures Enc(Star(y), k)
            == Node(BRANCH, 6 + Size(y)) + Enc(y, 0)
               + (Node(BACK, 3 + Size(y)) + Node(BRANCH, 3) + Node(NOTHING, Off(3, k)))
  {
    hide Node, Size, EncAlts;
    assert Enc(Star(y), k) == StarCode(Enc(y, 0), k);
  }

  lemma PlusForm(y: Re, k: int)
    requires !Simple(y)
    ensures Enc(Plus(y), k)
            == Enc(y, 0) + (Node(BRANCH, 6) + Node(BACK, 3 + Size(y)) + Node(BRANCH, 3) + Node(NOTHING, Off(3, k)))
  {
    hide Node, Size, EncAlts;
    assert Enc(Plus(y), k) == PlusCode(Enc(y, 0), k);
  }

  lemma OptForm(y: Re, k: int)
    ensures Enc(Opt(y), k) == Node(BRANCH, 3 + Size(y)) + Enc(y, 3) + (Node(BRANCH, 3) + Node(NOTHING, Off(3, k)))
  {
    hide Node, Size, EncAlts;
    assert Enc(Opt(y), k) == OptCode(Enc(y, 3), k);
  }

  lemma GroupParts(c: seq<nat>, p: nat, n: nat, alts: seq<Branch>, k: int)
    requires Has(c, p, Enc(Group(n, alts), k))
    ensures Has(c, p, Node(OPEN + n, 3)) && Has(c, p + 3, EncAlts(alts, 0, 0, |alts|))
    ensures Has(c, p + 3 + SizeAlts(alts), Node(CLOSE + n, Off(3, k)))
  {
    hide Has, Node, EncAlts;
    HasThree(c, p, Node(OPEN + n, 3), EncAlts(alts, 0, 0, |alts|), Node(CLOSE + n, Off(3, k)));
  }

  lemma SimpleParts(c: seq<nat>, p: nat, x: Re, k: int)
    requires (x.Star? || x.Plus?) && Simple(x.x) && Has(c, p, Enc(x, k))
    ensures Has(c, p, Node(if x.Star? then STAR else PLUS, Off(Size(x), k))) && Has(c, p + 3, Enc(x.x, -1))
  {
    hide Has, Node;
    HasParts(c, p, Node(if x.Star? then STAR else PLUS, Off(Size(x), k)), Enc(x.x, -1));
  }

  lemma StarParts(c: seq<nat>, p: nat, y: Re, k: int)
    requires !Simple(y) && Has(c, p, Enc(Star(y), k))
    ensures Has(c, p, Node(BRANCH, 6 + Size(y))) && Has(c, p + 3, Enc(y, 0))
    ensures Has(c, p + 3 + Size(y), Node(BACK, 3 + Size(y)))
    ensures Has(c, p + 6 + Size(y), Node(BRANCH, 3)) && Has(c, p + 9 + Size(y), Node(NOTHING, Off(3, k)))
  {
    hide Has, Node, Enc, Size;
    StarForm(y, k);
    var a, w, b1, b2, b3 := Node(BRANCH, 6 + Size(y)), Enc(y, 0), Node(BACK, 3 + Size(y)), Node(BRANCH, 3),
        Node(NOTHING, Off(3, k));
    HasFive(c, p, a, w, b1, b2, b3);
    assert |a| == 3 && |w| == Size(y) && |b1| == 3 && |b2| == 3;
  }

  lemma PlusParts(c: seq<nat>, p: nat, y: Re, k: int)
    requires !Simple(y) && Has(c, p, Enc(Plus(y), k))
    ensures Has(c, p, Enc(y, 0)) && Has(c, p + Size(y), Node(BRANCH, 6))
    ensures Has(c, p + Size(y) + 3, Node(BACK, 3 + Size(y)))
    ensures Has(c, p + Size(y) + 6, Node(BRANCH, 3)) && Has(c, p + Size(y) + 9, Node(NOTHING, Off(3, k)))
  {
    hide Has, Node, Enc, Size;
    PlusForm(y, k);
    var w, b1, b2, b3, b4 := Enc(y, 0), Node(BRANCH, 6), Node(BACK, 3 + Size(y)), Node(BRANCH, 3),
        Node(NOTHING, Off(3, k));
    assert w + (b1 + b2 + b3 + b4) == w + b1 + (b2 + b3 + b4);
    HasFive(c, p, w, b1, b2, b3, b4);
    assert |w| == Size(y) && |b1| == 3 && |b2| == 3 && |b3| == 3;
  }

  lemma OptParts(c: seq<nat>, p: nat, y: Re, k: int)
    requires Has(c, p, Enc(Opt(y), k))
    ensures Has(c, p, Node(BRANCH, 3 + Size(y))) && Has(c, p + 3, Enc(y, 3))
    ensures Has(c, p + 3 + Size(y), Node(BRANCH, 3)) && Has(c, p + 6 + Size(y), Node(NOTHING, Off(3, k)))
  {
    hide Has, Node, Enc, Size;
    OptForm(y, k);
    HasThree(c, p, Node(BRANCH, 3 + Size(y)), Enc(y, 3), Node(BRANCH, 3) + Node(NOTHING, Off(3, k)));
    HasParts(c, p + 3 + Size(y), Node(BRANCH, 3), Node(NOTHING, Off(3, k)));
  }

  lemma LitParts(c: seq<nat>, p: nat, x: Re, k: int)
    requires (x.Lit? || x.Class?) && Has(c, p, Enc(x, k))
    ensures Has(c, p, Node(if x.Lit? then EXACTLY else if x.neg then ANYBUT else ANYOF, Off(Size(x), k)))
    ensures Has(c, p + 3, if x.Lit? then x.str + [0] else x.chars + [0])
  {
    hide Has, Node;
    var w := if x.Lit? then x.str else x.chars;
    var op := if x.Lit? then EXACTLY else if x.neg then ANYBUT else ANYOF;
    HasThree(c, p, Node(op, Off(Size(x), k)), w, [0]);
    HasParts(c, p + 3, w, [0]);
  }

  lemma BranchParts(c: seq<nat>, p: nat, bs: seq<Branch>, nx: int, t: nat, n: nat)
    requires bs != [] && Has(c, p, EncAlts(bs, nx, t, n))
    ensures Has(c, p, Node(BRANCH, Off(3 + SizeBody(bs[0].ps), if |bs| == 1 then nx else 0)))
    ensures Has(c, p + 3, EncBody(bs[0].ps, if n > 0 then SizeAlts(bs[1..]) + t else -1))
    ensures Has(c, p + 3 + SizeBody(bs[0].ps), EncAlts(bs[1..], nx, t, if n > 0 then n - 1 else 0))
  {
    hide Has, Node, EncBody;
    var b, nx0, t0 := bs[0], if |bs| == 1 then nx else 0, if n > 0 then SizeAlts(bs[1..]) + t else -1;
    HasParts(c, p, EncBranch(b, nx0, t0), EncAlts(bs[1..], nx, t, if n > 0 then n - 1 else 0));
    HasParts(c, p, Node(BRANCH, Off(3 + SizeBody(b.ps), nx0)), EncBody(b.ps, t0));
  }

  // ---- Chains ----

  /** The branches of a choice are chained, the last one to what follows. */
  lemma {:induction false} AltsChain(c: seq<nat>, p: nat, bs: seq<Branch>, t: nat, n: nat)
    requires Has(c, p, EncAlts(bs, 0, t, n))
    ensures Chain(c, p, p + SizeAlts(bs))
    decreases |bs|
  {
    hide Has, Node, EncAlts, Next, SizeBody;
    if bs != [] {
      BranchParts(c, p, bs, 0, t, n);
      var b := bs[0];
      AltsChain(c, p + 3 + SizeBody(b.ps), bs[1..], t, if n > 0 then n - 1 else 0);
      ChainStep(c, p, BRANCH, 3 + SizeBody(b.ps), p + SizeAlts(bs));
    }
  }

  lemma StarChain(c: seq<nat>, p: nat, y: Re, k: int)
    requires !Simple(y) && Has(c, p, Enc(Star(y), k))
    ensures Chain(c, p, p + Exit(Star(y)))
  {
    hide Has, Node, Enc, EncAlts, Next, SizeAlts;
    var z := p + Exit(Star(y));
    StarParts(c, p, y, k);
    ChainStep(c, z - 3, BRANCH, 3, z);
    ChainStep(c, p, BRANCH, 6 + Size(y), z);
  }

  lemma PlusChain(c: seq<nat>, p: nat, y: Re, k: int)
    requires !Simple(y) && Has(c, p, Enc(Plus(y), k)) && Chain(c, p, p + Exit(y))
    ensures Chain(c, p, p + Exit(Plus(y)))
  {
    hide Has, Node, Enc, EncAlts, Next, SizeAlts;
    var z := p + Exit(Plus(y));
    PlusParts(c, p, y, k);
    ExitNext(c, p, y, 0);
    ChainStep(c, z - 3, BRANCH, 3, z);
    ChainStep(c, z - 9, BRANCH, 6, z);
    assert Chain(c, p + Exit(y), z);
    ChainTrans(c, p, p + Exit(y), z);
  }

  /** The chain from the first node of x leads to its exit. */
  lemma {:induction false} EncChain(c: seq<nat>, p: nat, x: Re, k: int)
    requires Has(c, p, Enc(x, k))
    ensures Chain(c, p, p + Exit(x))
    decreases x
  {
    hide Has, Node, Enc, EncAlts, Next, SizeAlts;
    var z := p + Exit(x);
    match x
    case Group(n, alts) =>
      GroupParts(c, p, n, alts, k);
      AltsChain(c, p + 3, alts, 0, |alts|);
      ChainStep(c, p, OPEN + n, 3, z);
    case Star(y) => if !Simple(y) { StarChain(c, p, y, k); }
    case Plus(y) =>
      if !Simple(y) {
        PlusParts(c, p, y, k);
        EncChain(c, p, y, 0);
        PlusChain(c, p, y, k);
      }
    case Opt(y) =>
      OptParts(c, p, y, k);
      ChainStep(c, z - 3, BRANCH, 3, z);
      ChainStep(c, p, BRANCH, 3 + Size(y), z);
    case _ =>
  }

  /** The next pointer of the exit of x. */
  lemma ExitNext(c: seq<nat>, p: nat, x: Re, k: nat)
    requires Has(c, p, Enc(x, k))
    ensures p + Exit(x) + 2 < |c| && c[p + Exit(x)] != BACK && Next(c, p + Exit(x)) == p + Size(x) + k
  {
    hide Has, Node, Enc, Next, Size, Exit, ExitOp;
    ExitNode(c, p, x, k);
    NextOf(c, p + Exit(x), ExitOp(x), Size(x) - Exit(x) + k);
  }

  lemma {:induction false} PiecesChain(c: seq<nat>, p: nat, ps: seq<Re>, k: int)
    requires ps != [] && Has(c, p, EncPieces(ps, k))
    ensures Chain(c, p, p + ExitPieces(ps))
    decreases |ps|
  {
    hide Has, Node, Enc, Next, Size;
    if |ps| == 1 {
      EncChain(c, p, ps[0], k);
    } else {
      HasParts(c, p, Enc(ps[0], 0), EncPieces(ps[1..], k));
      EncChain(c, p, ps[0], 0);
      ExitNext(c, p, ps[0], 0);
      PiecesChain(c, p + Size(ps[0]), ps[1..], k);
      ChainOn(c, p + Exit(ps[0]), p + Size(ps[0]), p + ExitPieces(ps));
      ChainTrans(c, p, p + Exit(ps[0]), p + ExitPieces(ps));
    }
  }

  lemma ChainOn(c: seq<nat>, p: nat, q: nat, z: nat)
    requires p + 2 < |c| && p < q && Next(c, p) == q && Chain(c, q, z)
    ensures Chain(c, p, z)
  {
  }
}
