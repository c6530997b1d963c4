/**
 regcomp's two passes: the same routines first count bytes and then emit them.  Both passes
 follow the parser; the count is the number of bytes emitted, and what is emitted is the code
 of the syntax tree.
 */
module ReCompile {
  import opened ReSyntax
  import opened ReCode
  import opened ReEmit

  /** Code emitted, or only counted. */
  datatype Emission = Emission(dummy: bool, out: seq<nat>, size: nat)

  function Add(m: Emission, w: seq<nat>): (r: Emission)
    ensures r.dummy == m.dummy && (!m.dummy ==> |r.out| == |m.out| + |w|)
  {
    if m.dummy then m.(size := m.size + |w|) else m.(out := m.out + w)
  }

  /** regtail on what there is; nothing to do while counting. */
  ghost predicate CanTail(m: Emission, p: nat, val: nat, z: nat) { m.dummy || Settable(m.out, p, val, z) }

  ghost function Tailed(m: Emission, p: nat, val: nat, z: nat): (r: Emission)
    requires CanTail(m, p, val, z)
    ensures r.dummy == m.dummy && |r.out| == |m.out|
  {
    if m.dummy then m else m.(out := Tail(m.out, val, z))
  }

  /** Setting the offset of a node in w turns it into v. */
  ghost predicate Turns(base: Emission, w: seq<nat>, v: seq<nat>, p: nat, val: nat, z: nat) {
    |v| == |w| && (!base.dummy ==> Settable(base.out + w, p, val, z) && Tail(base.out + w, val, z) == base.out + v)
  }

  lemma Turned(base: Emission, w: seq<nat>, v: seq<nat>, p: nat, val: nat, z: nat)
    requires Turns(base, w, v, p, val, z)
    ensures CanTail(Add(base, w), p, val, z) && Tailed(Add(base, w), p, val, z) == Add(base, v)
  {
  }

  lemma AddTwice(m: Emission, a: seq<nat>, b: seq<nat>)
    ensures Add(Add(m, a), b) == Add(m, a + b) && Add(m, []) == m
  {
    assert m.out + [] == m.out && m.out + a + b == m.out + (a + b);
  }

  class Compiler {
    const exp: seq<nat>
    /** regparse, regnpar */
    var parse: nat
    var npar: nat
    /** regcode points at regdummy: only count, in regsize */
    var dummy: bool
    var size: nat
    /** the program and regcode's place in it */
    var prog: array<nat>
    var code: nat

    constructor (exp: seq<nat>)
      requires Text(exp)
      ensures Valid() && dummy && this.exp == exp && parse == 0 && npar == 1 && size == 0 && fresh(prog)
    {
      this.exp := exp;
      parse, npar, dummy, size, code := 0, 1, true, 0, 0;
      prog := new nat[0];
    }

    ghost predicate Valid()
      reads this
    {
      Text(exp) && parse <= |exp| && 1 <= npar && Fits()
    }

    ghost predicate Fits()
      reads this`dummy, this`code, this`prog
    {
      !dummy ==> code <= prog.Length <= 32767
    }

    ghost function Out(): seq<nat>
      requires Fits()
      reads this`dummy, this`code, this`prog, prog
    {
      if dummy then [] else prog[..code]
    }

    /** What there is so far: a count, or code. */
    ghost function Made(): (m: Emission)
      requires Fits()
      reads this`dummy, this`size, this`code, this`prog, prog
      ensures m.dummy == dummy && (!dummy ==> |m.out| == code)
    {
      if dummy then Emission(true, [], size) else Emission(false, prog[..code], 0)
    }

    ghost predicate Room(n: nat)
      reads this
    {
      !dummy ==> code + n <= prog.Length
    }

    // ---- Emitting ----

    method RegC(b: nat)
      requires Valid() && Room(1)
      modifies this`size, this`code, prog
      ensures Valid() && Made() == Add(old(Made()), [b])
    {
      if !dummy {
        prog[code] := b;
        code := code + 1;
      } else {
        size := size + 1;
      }
    }

    method RegNode(op: nat) returns (ret: nat)
      requires Valid() && Room(3)
      modifies this`size, this`code, prog
      ensures Valid() && ret == old(code) && Made() == Add(old(Made()), Node(op, 0))
    {
      ret := code;
      if dummy {
        size := size + 3;
        return;
      }
      prog[code], prog[code + 1], prog[code + 2] := op, 0, 0;
      code := code + 3;
    }

    method RegInsert(op: nat, opnd: nat)
      requires Valid() && Room(3) && (!dummy ==> opnd <= code)
      modifies this`size, this`code, prog
      ensures Valid()
      ensures if dummy then size == old(size) + 3 else Out() == old(Out())[..opnd] + Node(op, 0) + old(Out())[opnd..]
    {
      if dummy {
        size := size + 3;
        return;
      }
      ghost var w := Out();
      Shift(opnd);
      code := code + 3;
      prog[opnd], prog[opnd + 1], prog[opnd + 2] := op, 0, 0;
      assert Out()[..opnd] == w[..opnd];
      assert Out()[opnd + 3..] == w[opnd..];
      assert Out()[opnd..opnd + 3] == Node(op, 0);
      ThreeParts(Out(), opnd);
    }

    /** Move the operand up by the size of a node. */
    method Shift(opnd: nat)
      requires Valid() && !dummy && opnd <= code && code + 3 <= prog.Length
      modifies prog
      ensures prog[..opnd] == old(prog[..opnd]) && prog[opnd + 3..code + 3] == old(prog[opnd..code])
    {
      var src := code;
      while src > opnd
        invariant opnd <= src <= code
        invariant forall k :: 0 <= k < src ==> prog[k] == old(prog[k])
        invariant forall k :: src + 3 <= k < code + 3 ==> prog[k] == old(prog[k - 3])
      {
        src := src - 1;
        prog[src + 3] := prog[src];
      }
    }

    method RegNext(p: nat) returns (r: int)
      requires Valid() && (!dummy ==> p + 2 < code)
      ensures r == if dummy then -1 else Next(Made().out, p)
    {
      if dummy { return -1; }
      var off := prog[p + 1] * 256 + prog[p + 2];
      if off == 0 { return -1; }
      return if prog[p] == BACK then p - off else p + off;
    }

    /** z is the node the chain from p ends at. */
    method RegTail(p: nat, val: nat, ghost z: nat)
      requires Valid() && CanTail(Made(), p, val, z)
      modifies prog
      ensures Valid() && Made() == Tailed(old(Made()), p, val, z)
    {
      if dummy { return; }
      var scan := p;
      ghost var c := Out();
      while true
        invariant Chain(c, scan, z) && 0 <= scan <= z && prog[..] == old(prog[..])
        decreases z - scan
      {
        var temp := RegNext(scan);
        if temp == -1 { break; }
        scan := temp;
      }
      assert scan == z;
      SetNext(scan, if prog[scan] == BACK then scan - val else val - scan);
    }

    method SetNext(p: nat, offset: nat)
      requires Valid() && !dummy && p + 2 < code && offset <= code
      modifies prog
      ensures Out() == SetOff(old(Out()), p, offset)
    {
      assert offset / 256 % 256 == offset / 256 by { OneByte(offset); }
      prog[p + 1] := offset / 256 % 256;
      prog[p + 2] := offset % 256;
    }

    method RegOpTail(p: nat, val: nat, ghost z: nat)
      requires Valid() && (!dummy ==> p < code)
      requires dummy || Made().out[p] == BRANCH ==> CanTail(Made(), p + 3, val, z)
      modifies prog
      ensures Valid()
      ensures Made() == if dummy || old(Made()).out[p] == BRANCH then Tailed(old(Made()), p + 3, val, z)
              else old(Made())
    {
      if dummy { return; }
      if prog[p] != BRANCH { return; }
      RegTail(p + 3, val, z);
    }

    // ---- Operators ----

    /** y has just been emitted, after base. */
    ghost predicate JustMade(base: Emission, lo: nat, y: Re)
      reads this, prog
    {
      Valid() && Made() == Add(base, Enc(y, -1)) && base.dummy == dummy && (!dummy ==> lo == |base.out|)
    }

    /** Put a node in front of it. */
    method Insert(op: nat, ghost base: Emission, lo: nat, ghost y: Re)
      requires JustMade(base, lo, y) && Room(3)
      modifies this`size, this`code, prog
      ensures Valid() && Made() == Add(base, Node(op, 0) + Enc(y, -1))
    {
      hide Enc, Node, Size;
      ghost var w := Made();
      RegInsert(op, lo);
      if !dummy {
        assert w.out[..lo] == base.out && w.out[lo..] == Enc(y, -1);
        assert Out() == base.out + (Node(op, 0) + Enc(y, -1));
      }
    }

    method MakeStar(lo: nat, ghost base: Emission, ghost y: Re)
      requires JustMade(base, lo, y) && !Simple(y) && Room(12)
      modifies this`size, this`code, prog
      ensures Valid() && Made() == Add(base, Enc(Star(y), -1))
    {
      hide Enc, Node, Size, Compiler.Made, Add;
      StarBegin(lo, base, y);
      StarEnd(lo, base, y);
      StarForm(y, -1);
      StarCat(Node(BRANCH, 6 + Size(y)), Enc(y, 0), Node(BACK, 3 + Size(y)), Node(BRANCH, 3), Node(NOTHING, 0));
    }

    /** A branch before y and a way back behind it. */
    method StarBegin(lo: nat, ghost base: Emission, ghost y: Re)
      requires JustMade(base, lo, y) && !Simple(y) && Room(12)
      modifies this`size, this`code, prog
      ensures Valid() && Made() == Add(base, Node(BRANCH, 0) + (Enc(y, 0) + Node(BACK, 3 + Size(y)))) && Room(6)
      ensures base.dummy == dummy && (!dummy ==> lo == |base.out|)
    {
      hide Enc, Node, Size, Compiler.Made, Add, Tailed, CanTail, Exit;
      ghost var n := Size(y);
      Insert(BRANCH, base, lo, y);
      AddTwice(base, Node(BRANCH, 0) + Enc(y, -1), Node(BACK, 0));
      var back := RegNode(BACK);
      StarLinks(base, lo, back, y);
      RegOpTail(lo, back, lo + 3 + Exit(y));
      RegOpTail(lo, lo, lo + 3 + n);
    }

    /** The branch past it. */
    method StarEnd(lo: nat, ghost base: Emission, ghost y: Re)
      requires Valid() && base.dummy == dummy && (!dummy ==> lo == |base.out|) && Room(6)
      requires Made() == Add(base, Node(BRANCH, 0) + (Enc(y, 0) + Node(BACK, 3 + Size(y))))
      modifies this`size, this`code, prog
      ensures Valid()
      ensures var w := Enc(y, 0) + Node(BACK, 3 + Size(y));
              Made() == Add(base, Node(BRANCH, 3 + |w|) + w + (Node(BRANCH, 3) + Node(NOTHING, 0)))
    {
      hide Enc, Node, Size, Compiler.Made, Add, Tailed, CanTail, Exit;
      ghost var w := Enc(y, 0) + Node(BACK, 3 + Size(y));
      AddTwice(base, Node(BRANCH, 0) + w, Node(BRANCH, 0));
      var second := RegNode(BRANCH);
      BranchLink(base, lo, second, w);
      RegTail(lo, second, lo);
      AddTwice(base, Node(BRANCH, 3 + |w|) + w + Node(BRANCH, 0), Node(NOTHING, 0));
      var last := RegNode(NOTHING);
      NothingLink(base, lo, second, last, w);
      RegTail(lo, last, second);
    }

    method MakePlus(lo: nat, ghost base: Emission, ghost y: Re)
      requires JustMade(base, lo, y) && !Simple(y) && Room(12)
      modifies this`size, this`code, prog
      ensures Valid() && Made() == Add(base, Enc(Plus(y), -1))
    {
      hide Enc, Node, Size, Compiler.Made, Add, Tailed, CanTail, Exit;
      ghost var e, n := Enc(y, 0), Size(y);
      AddTwice(base, Enc(y, -1), Node(BRANCH, 0));
      var next := RegNode(BRANCH);
      PlusFirstLink(base, lo, next, y);
      RegTail(lo, next, lo + Exit(y));
      AddTwice(base, e + Node(BRANCH, 0), Node(BACK, 0));
      var back := RegNode(BACK);
      PlusBackLink(base, lo, back, y);
      RegTail(back, lo, back);
      AddTwice(base, e + Node(BRANCH, 0) + Node(BACK, 3 + n), Node(BRANCH, 0));
      var second := RegNode(BRANCH);
      PlusSecondLink(base, next, second, y);
      RegTail(next, second, next);
      AddTwice(base, e + Node(BRANCH, 6) + Node(BACK, 3 + n) + Node(BRANCH, 0), Node(NOTHING, 0));
      var last := RegNode(NOTHING);
      PlusLastLink(base, lo, second, last, y);
      RegTail(lo, last, second);
    }

    method MakeOpt(lo: nat, ghost base: Emission, ghost y: Re)
      requires JustMade(base, lo, y) && Room(9)
      modifies this`size, this`code, prog
      ensures Valid() && Made() == Add(base, Enc(Opt(y), -1))
    {
      hide Enc, Node, Size, Compiler.Made, Add, Tailed, CanTail, Exit;
      ghost var w := Enc(y, -1);
      Insert(BRANCH, base, lo, y);
      AddTwice(base, Node(BRANCH, 0) + w, Node(BRANCH, 0));
      var second := RegNode(BRANCH);
      BranchLink(base, lo, second, w);
      RegTail(lo, second, lo);
      AddTwice(base, Node(BRANCH, 3 + |w|) + w + Node(BRANCH, 0), Node(NOTHING, 0));
      var next := RegNode(NOTHING);
      NothingLink(base, lo, second, next, w);
      RegTail(lo, next, second);
      OptLinks(base, lo, next, y);
      RegOpTail(lo, next, lo + 3 + Exit(y));
    }

    // ---- Parsing ----

    method RegRange(lo: nat, hi: nat)
      requires Valid() && Room(|Range(lo, hi)|)
      modifies this`size, this`code, prog
      ensures Valid() && Made() == Add(old(Made()), Range(lo, hi))
    {
      hide Compiler.Made, Add;
      var c := lo;
      ghost var done: seq<nat> := [];
      AddTwice(Made(), [], []);
      while c <= hi
        invariant lo <= c && Valid() && Made() == Add(old(Made()), done)
        invariant Range(lo, hi) == done + Range(c, hi)
      {
        AddTwice(old(Made()), done, [c]);
        RegC(c);
        assert done + Range(c, hi) == done + [c] + Range(c + 1, hi);
        done := done + [c];
        c := c + 1;
      }
      assert done + Range(c, hi) == done;
    }

    /** One character or range of a bracket expression. */
    method RegItem() returns (ok: bool, ghost item: seq<nat>)
      requires Valid() && 1 <= parse < |exp| && exp[parse] != RBRACKET
      requires !dummy ==> PClass(exp, parse).Ok? && Room(|PClass(exp, parse).value|)
      modifies this`parse, this`size, this`code, prog
      ensures Valid() && (!ok ==> PClass(exp, old(parse)).Fail?)
      ensures ok ==> old(parse) < parse && PClass(exp, old(parse)) == Before(item, PClass(exp, parse))
      ensures ok ==> Made() == Add(old(Made()), item)
    {
      item := [exp[parse]];
      if exp[parse] == MINUS {
        parse := parse + 1;
        if At(exp, parse) == RBRACKET || At(exp, parse) == 0 {
          RegC(MINUS);
        } else {
          var cls, last := exp[parse - 2] + 1, exp[parse];
          if cls > last + 1 { return false, item; }
          item := Range(cls, last);
          RegRange(cls, last);
          parse := parse + 1;
        }
      } else {
        RegC(exp[parse]);
        parse := parse + 1;
      }
      ok := true;
    }

    /** The rest of a bracket expression. */
    method RegItems() returns (ok: bool)
      requires Valid() && 1 <= parse
      requires !dummy ==> PClass(exp, parse).Ok? && Room(|PClass(exp, parse).value| + 1)
      modifies this`parse, this`size, this`code, prog
      ensures Valid() && ok == PClass(exp, old(parse)).Ok?
      ensures ok ==> var r := PClass(exp, old(parse)); parse == r.pos && Made() == Add(old(Made()), r.value + [0])
    {
      ghost var r := PClass(exp, parse);
      ghost var done: seq<nat> := [];
      hide Compiler.Made, Add;
      BeforeTwice([], [], r);
      AddTwice(Made(), [], []);
      while At(exp, parse) != 0 && At(exp, parse) != RBRACKET
        invariant Valid() && 1 <= parse && r == Before(done, PClass(exp, parse)) && Made() == Add(old(Made()), done)
        decreases |exp| - parse
      {
        hide PClass;
        ghost var item;
        ok, item := RegItem();
        if !ok { return; }
        BeforeTwice(done, item, PClass(exp, parse));
        AddTwice(old(Made()), done, item);
        done := done + item;
      }
      AddTwice(old(Made()), done, [0]);
      RegC(0);
      if At(exp, parse) != RBRACKET { return false; }
      parse := parse + 1;
      return true;
    }

    /** A bracket expression, after the opening bracket and the caret. */
    method RegSet() returns (ok: bool)
      requires Valid() && 1 <= parse
      requires !dummy ==> PSet(exp, parse).Ok? && Room(|PSet(exp, parse).value| + 1)
      modifies this`parse, this`size, this`code, prog
      ensures Valid() && ok == PSet(exp, old(parse)).Ok?
      ensures ok ==> var r := PSet(exp, old(parse)); parse == r.pos && Made() == Add(old(Made()), r.value + [0])
    {
      hide PClass, Compiler.Made, Add;
      if At(exp, parse) == RBRACKET || At(exp, parse) == MINUS {
        ghost var first := [exp[parse]];
        RegC(exp[parse]);
        parse := parse + 1;
        ghost var rest := PClass(exp, parse);
        ok := RegItems();
        if ok {
          AddTwice(old(Made()), first, rest.value + [0]);
          assert first + (rest.value + [0]) == first + rest.value + [0];
        }
        return;
      }
      ok := RegItems();
    }

    /** strcspn with META. */
    method CountOrdinary() returns (n: nat)
      requires Valid()
      ensures n == Ordinary(exp, parse)
    {
      n := 0;
      while parse + n < |exp| && !IsMeta(exp[parse + n])
        invariant parse + n <= |exp| && Ordinary(exp, parse) == n + Ordinary(exp, parse + n)
      {
        n := n + 1;
      }
    }

    /** Copy len characters of the pattern and a null byte. */
    method RegText(len: nat)
      requires Valid() && parse + len <= |exp| && Room(len + 1)
      modifies this`parse, this`size, this`code, prog
      ensures Valid() && parse == old(parse) + len && Made() == Add(old(Made()), exp[old(parse)..parse] + [0])
    {
      hide Compiler.Made, Add;
      AddTwice(Made(), [], []);
      var start := parse;
      assert exp[start..start] == [];
      while parse < start + len
        invariant start <= parse <= start + len && Valid() && Made() == Add(old(Made()), exp[start..parse])
      {
        AddTwice(old(Made()), exp[start..parse], [exp[parse]]);
        assert exp[start..parse + 1] == exp[start..parse] + [exp[parse]];
        RegC(exp[parse]);
        parse := parse + 1;
      }
      AddTwice(old(Made()), exp[start..parse], [0]);
      RegC(0);
    }

    /** What a parsing routine has done: it has followed the parser, and emitted x. */
    ghost predicate Parsed(r: Parsed<Re>, before: Emission)
      reads this, prog
    {
      Valid() && r.Ok? && parse == r.pos && npar == r.npar && Made() == Add(before, Enc(r.value, -1))
    }

    /** There is room for x if the parser finds it; while emitting it always does. */
    ghost predicate Ready(r: Parsed<Re>)
      reads this
    {
      Valid() && (!dummy ==> r.Ok? && Room(Size(r.value)))
    }

    method RegLit() returns (simple: bool)
      requires Valid() && parse < |exp| && !IsMeta(exp[parse]) && Ready(PAtom(exp, parse, npar))
      modifies this`parse, this`size, this`code, prog
      ensures Parsed(PAtom(exp, old(parse), npar), old(Made()))
      ensures simple == Simple(PAtom(exp, old(parse), npar).value)
    {
      hide Compiler.Made, Add, Node;
      var len := CountOrdinary();
      if len > 1 && IsMult(At(exp, parse + len)) { len := len - 1; }
      simple := len == 1;
      ghost var str := exp[parse..parse + len];
      assert PAtom(exp, parse, npar) == Ok(Lit(str), parse + len, npar);
      assert Enc(Lit(str), -1) == Node(EXACTLY, 0) + str + [0];
      AddTwice(Made(), Node(EXACTLY, 0), str + [0]);
      assert Node(EXACTLY, 0) + (str + [0]) == Node(EXACTLY, 0) + str + [0];
      var _ := RegNode(EXACTLY);
      RegText(len);
    }

    method RegBracket() returns (ok: bool)
      requires Valid() && At(exp, parse) == LBRACKET && Ready(PAtom(exp, parse, npar))
      modifies this`parse, this`size, this`code, prog
      ensures Valid() && ok == PAtom(exp, old(parse), npar).Ok?
      ensures ok ==> Parsed(PAtom(exp, old(parse), npar), old(Made()))
    {
      hide Compiler.Made, Add, Node, PSet;
      ghost var r := PAtom(exp, parse, npar);
      parse := parse + 1;
      var op := ANYOF;
      if At(exp, parse) == CARET {
        op := ANYBUT;
        parse := parse + 1;
      }
      ghost var cs := PSet(exp, parse);
      assert r.Ok? == cs.Ok? && (cs.Ok? ==> r == Ok(Class(op == ANYBUT, cs.value), cs.pos, npar));
      assert cs.Ok? ==> Enc(r.value, -1) == Node(op, 0) + cs.value + [0];
      var _ := RegNode(op);
      ok := RegSet();
      if ok {
        AddTwice(old(Made()), Node(op, 0), cs.value + [0]);
        assert Node(op, 0) + (cs.value + [0]) == Node(op, 0) + cs.value + [0];
      }
    }

    /** regatom: ret is where the atom starts; the flags are those of its tree. */
    method RegAtom() returns (ok: bool, ret: nat, width: bool, simple: bool, sp: bool)
      requires Valid() && Ready(PAtom(exp, parse, npar))
      modifies this`parse, this`npar, this`size, this`code, prog
      ensures Valid() && ret == old(code) && ok == PAtom(exp, old(parse), old(npar)).Ok?
      ensures ok ==> Parsed(PAtom(exp, old(parse), old(npar)), old(Made()))
      ensures ok ==> var x := PAtom(exp, old(parse), old(npar)).value;
              width == HasWidth(x) && simple == Simple(x) && sp == SpStart(x)
      decreases |exp| - parse, 1
    {
      hide Compiler.Made, Add, Node, PReg, PSet;
      ok, ret, width, simple, sp := true, code, false, false, false;
      var c := At(exp, parse);
      if c == CARET {
        parse := parse + 1;
        ret := RegNode(BOL);
      } else if c == DOLLAR {
        parse := parse + 1;
        ret := RegNode(EOL);
      } else if c == DOT {
        parse := parse + 1;
        ret := RegNode(ANY);
        width, simple := true, true;
      } else if c == LBRACKET {
        ok := RegBracket();
        width, simple := true, true;
      } else if c == LPAREN {
        ok, ret, width, sp := RegGroup();
      } else if c == 0 || c == BAR || c == RPAREN || IsMult(c) {
        ok := false;
      } else if c == BACKSLASH {
        parse := parse + 1;
        if At(exp, parse) == 0 { return false, ret, false, false, false; }
        ghost var str := [exp[parse]];
        assert exp[parse..parse + 1] == str;
        assert Enc(Lit(str), -1) == Node(EXACTLY, 0) + str + [0];
        AddTwice(Made(), Node(EXACTLY, 0), str + [0]);
        assert Node(EXACTLY, 0) + (str + [0]) == Node(EXACTLY, 0) + str + [0];
        ret := RegNode(EXACTLY);
        RegText(1);
        width, simple := true, true;
      } else {
        simple := RegLit();
        width := true;
      }
    }

    /** A parenthesised expression. */
    method RegGroup() returns (ok: bool, ret: nat, width: bool, sp: bool)
      requires Valid() && At(exp, parse) == LPAREN && Ready(PAtom(exp, parse, npar))
      modifies this`parse, this`npar, this`size, this`code, prog
      ensures Valid() && ret == old(code) && ok == PAtom(exp, old(parse), old(npar)).Ok?
      ensures ok ==> Parsed(PAtom(exp, old(parse), old(npar)), old(Made()))
      ensures ok ==> var x := PAtom(exp, old(parse), old(npar)).value;
              x.Group? && width == HasWidth(x) && sp == SpStart(x)
      decreases |exp| - parse, 0
    {
      hide Compiler.Made, Add, Node, PReg, EncAlts;
      ghost var n := npar;
      ghost var r := PReg(exp, parse + 1, true, npar + 1);
      parse := parse + 1;
      ok, ret, width, sp := Reg(true);
      if ok {
        assert Enc(Group(n, r.value), -1) == Node(OPEN + n, 3) + EncAlts(r.value, 0, 0, |r.value|) + Node(CLOSE + n, 0);
      }
    }

    method RegPiece() returns (ok: bool, ret: nat, width: bool, sp: bool)
      requires Valid() && Ready(PPiece(exp, parse, npar))
      modifies this`parse, this`npar, this`size, this`code, prog
      ensures Valid() && ret == old(code) && ok == PPiece(exp, old(parse), old(npar)).Ok?
      ensures ok ==> Parsed(PPiece(exp, old(parse), old(npar)), old(Made()))
      ensures ok ==> var x := PPiece(exp, old(parse), old(npar)).value; width == HasWidth(x) && sp == SpStart(x)
      decreases |exp| - parse, 2
    {
      hide Compiler.Made, Add, Node, PAtom, Enc;
      ghost var base, a := Made(), PAtom(exp, parse, npar);
      var simple;
      ok, ret, width, simple, sp := RegAtom();
      if !ok { return; }
      var op := At(exp, parse);
      if !IsMult(op) { return; }
      if !width && op != QUEST { return false, ret, false, false; }
      width, sp := op == PLUS_SIGN, op != PLUS_SIGN;
      Repeat(op, simple, ret, base, a.value);
      parse := parse + 1;
      if IsMult(At(exp, parse)) { return false, ret, false, false; }
    }

    /** Apply the operator to the atom just emitted. */
    method Repeat(op: nat, simple: bool, ret: nat, ghost base: Emission, ghost y: Re)
      requires IsMult(op) && simple == Simple(y) && JustMade(base, ret, y) && Room(Size(Repeated(y, op)) - Size(y))
      modifies this`size, this`code, prog
      ensures Valid() && Made() == Add(base, Enc(Repeated(y, op), -1))
    {
      hide Compiler.Made, Add, Node;
      if op == ASTERISK && simple {
        Insert(STAR, base, ret, y);
      } else if op == ASTERISK {
        MakeStar(ret, base, y);
      } else if op == PLUS_SIGN && simple {
        Insert(PLUS, base, ret, y);
      } else if op == PLUS_SIGN {
        MakePlus(ret, base, y);
      } else {
        MakeOpt(ret, base, y);
      }
    }

    /** Another piece, linked to the one before it if there is one. */
    method AddPiece(chain: int, ghost base: Emission, ghost ps: seq<Re>)
      returns (ok: bool, latest: nat, width: bool, sp: bool)
      requires Valid() && Ready(PPiece(exp, parse, npar)) && base.dummy == dummy
      requires Made() == Add(base, Node(BRANCH, 0) + Body(ps)) && -1 <= chain && (chain == -1 <==> ps == [])
      requires !dummy && ps != [] ==> chain == |base.out| + 3 + SizePieces(ps[..|ps| - 1])
      modifies this`parse, this`npar, this`size, this`code, prog
      ensures Valid() && latest == old(code) && ok == PPiece(exp, old(parse), old(npar)).Ok?
      ensures ok ==>
                var p := PPiece(exp, old(parse), old(npar));
                && parse == p.pos && npar == p.npar && width == HasWidth(p.value) && sp == SpStart(p.value)
                && Made() == Add(base, Node(BRANCH, 0) + Body(ps + [p.value]))
      decreases |exp| - parse, 3
    {
      hide Compiler.Made, Add, Node, PPiece, Enc, Body, Size;
      ghost var p := PPiece(exp, parse, npar);
      BodyLength(ps);
      ok, latest, width, sp := RegPiece();
      if !ok { return; }
      AddTwice(base, Node(BRANCH, 0) + Body(ps), Enc(p.value, -1));
      if chain == -1 {
        BodyFirst(p.value);
      } else {
        BodyForms(ps, p.value);
        PieceLink(base, Head(ps[..|ps| - 1]), ps[|ps| - 1], Enc(p.value, -1), chain, latest);
        RegTail(chain, latest, chain + Exit(ps[|ps| - 1]));
      }
    }

    method RegBranch() returns (ok: bool, ret: nat, width: bool, sp: bool)
      requires Valid() && (!dummy ==> var r := PBranch(exp, parse, npar); r.Ok? && Room(3 + SizeBody(r.value)))
      modifies this`parse, this`npar, this`size, this`code, prog
      ensures Valid() && ret == old(code) && ok == PBranch(exp, old(parse), old(npar)).Ok?
      ensures ok ==>
                var r := PBranch(exp, old(parse), old(npar));
                && parse == r.pos && npar == r.npar && width == PiecesWidth(r.value) && sp == PiecesSp(r.value)
                && Made() == Add(old(Made()), EncBranch(Branch(r.value), -1, -1))
      decreases |exp| - parse, 4
    {
      hide Compiler.Made, Add, Node, PPiece, Enc, PBranch, SizeBody, Body, Size, PiecesWidth;
      ghost var base, r := Made(), PBranch(exp, parse, npar);
      ghost var ps: seq<Re> := [];
      width, sp := false, false;
      ret := RegNode(BRANCH);
      var chain: int := -1;
      BranchStarts(r);
      while !EndsBranch(At(exp, parse))
        invariant Valid() && old(parse) <= parse && r == Cons(ps, PBranch(exp, parse, npar))
        invariant width == PiecesWidth(ps) && sp == PiecesSp(ps) && chain >= -1 && (chain == -1 <==> ps == [])
        invariant Made() == Add(base, Node(BRANCH, 0) + Body(ps))
        invariant !dummy && ps != [] ==> chain == |base.out| + 3 + SizePieces(ps[..|ps| - 1])
        decreases |exp| - parse
      {
        ghost var p := PPiece(exp, parse, npar);
        NextPiece(exp, parse, npar, ps);
        var latest, w, f;
        ok, latest, w, f := AddPiece(chain, base, ps);
        if !ok { return false, ret, false, false; }
        WidthSnoc(ps, p.value);
        width := width || w;
        if chain == -1 { sp := f; }
        assert (ps + [p.value])[..|ps|] == ps;
        ps := ps + [p.value];
        chain := latest;
      }
      BranchEnds(exp, parse, npar, ps);
      if chain == -1 {
        AddTwice(base, Node(BRANCH, 0) + Body(ps), Node(NOTHING, 0));
        var _ := RegNode(NOTHING);
      }
      BranchIs(ps);
      ok := true;
    }

    /** What reg makes: the alternatives between their opening and closing nodes. */
    ghost predicate RegDone(paren: bool, n: nat, bs: seq<Branch>, before: Emission)
      reads this, prog
    {
      Valid() && Made() == Add(before,
          Opening(paren, n) + EncAlts(bs, 0, 0, |bs|) + Node(if paren then CLOSE + n else END, 0))
    }

    method Reg(paren: bool) returns (ok: bool, ret: nat, width: bool, sp: bool)
      requires Valid()
      requires !dummy ==>
                 && !(paren && npar >= NSUBEXP)
                 && var r := PReg(exp, parse, paren, if paren then npar + 1 else npar);
                    r.Ok? && Room((if paren then 3 else 0) + SizeAlts(r.value) + 3)
      modifies this`parse, this`npar, this`size, this`code, prog
      ensures Valid() && ret == old(code)
      ensures ok == (!(paren && old(npar) >= NSUBEXP)
              && PReg(exp, old(parse), paren, if paren then old(npar) + 1 else old(npar)).Ok?)
      ensures ok ==>
                var r := PReg(exp, old(parse), paren, if paren then old(npar) + 1 else old(npar));
                && parse == r.pos && npar == r.npar && width == AltsWidth(r.value) && sp == AltsSp(r.value)
                && RegDone(paren, old(npar), r.value, old(Made()))
      decreases |exp| - parse, 7
    {
      hide Compiler.Made, Add, Node, EncAlts, PAlts, AltsWidth, AltsSp;
      ghost var base := Made();
      var n := npar;
      ret := code;
      if paren && npar >= NSUBEXP { return false, ret, false, false; }
      AddTwice(base, [], []);
      if paren {
        npar := npar + 1;
        ret := RegNode(OPEN + n);
      }
      ghost var bs;
      ok, width, sp, bs := RegAlts(paren, ret, n, base);
      if !ok { return; }
      Close(paren, ret, n, base, bs);
      if paren {
        if At(exp, parse) != RPAREN { return false, ret, false, false; }
        parse := parse + 1;
      } else if At(exp, parse) != 0 {
        return false, ret, false, false;
      }
    }

    /** The branches after the first, each linked to the one before. */
    method RegAlts(paren: bool, ret: nat, ghost n: nat, ghost base: Emission)
      returns (ok: bool, width: bool, sp: bool, ghost bs: seq<Branch>)
      requires Valid() && base.dummy == dummy && Made() == Add(base, if paren then Node(OPEN + n, 0) else [])
      requires !dummy ==>
                 ret == |base.out| && var r := PAlts(exp, parse, npar); r.Ok? && Room(SizeAlts(r.value))
      modifies this`parse, this`npar, this`size, this`code, prog
      ensures Valid() && ok == PAlts(exp, old(parse), old(npar)).Ok?
      ensures ok ==>
                var r := PAlts(exp, old(parse), old(npar));
                && parse == r.pos && npar == r.npar && bs == r.value && width == AltsWidth(bs) && sp == AltsSp(bs)
                && Made() == Add(base, Opening(paren, n) + EncAlts(bs, -1, 0, 0))
      decreases |exp| - parse, 6
    {
      hide Compiler.Made, Add, Node, EncAlts, PAlts, AltsWidth, AltsSp, PBranch, EncBranch, SizeAlts, SizeBody, Opening;
      ghost var r, b := PAlts(exp, parse, npar), PBranch(exp, parse, npar);
      bs := [];
      FirstAlt(exp, parse, npar);
      TailsStart(paren, n, []);
      var br;
      ok, br, width, sp := RegBranch();
      if !ok { return false, false, false, []; }
      bs := [Branch(b.value)];
      FirstLink(base, paren, n, ret, br, b.value);
      if paren { RegTail(ret, br, ret); }
      while At(exp, parse) == BAR
        invariant Valid() && old(parse) <= parse && bs != [] && r == ConsAlts(bs, More(exp, parse, npar))
        invariant width == AltsWidth(bs) && sp == AltsSp(bs)
        invariant Made() == Add(base, Opening(paren, n) + EncAlts(bs, -1, 0, 0))
        invariant !dummy ==> r.Ok? && |base.out| + |Opening(paren, n)| + SizeAlts(r.value) <= prog.Length
        decreases |exp| - parse
      {
        parse := parse + 1;
        b := PBranch(exp, parse, npar);
        NextAlt(exp, parse, npar, bs);
        var w, f;
        ok, w, f := AddAlt(paren, ret, n, base, bs);
        if !ok { return false, false, false, []; }
        AltsFlags(bs, Branch(b.value));
        width, sp := width && w, sp || f;
        bs := bs + [Branch(b.value)];
      }
      MoreEnds(exp, parse, npar, bs);
      ok := true;
    }

    /** Another branch, linked to the one before it. */
    method AddAlt(paren: bool, ret: nat, ghost n: nat, ghost base: Emission, ghost bs: seq<Branch>)
      returns (ok: bool, width: bool, sp: bool)
      requires Valid() && base.dummy == dummy && bs != []
      requires Made() == Add(base, Opening(paren, n) + EncAlts(bs, -1, 0, 0))
      requires !dummy ==> ret == |base.out| && var r := PBranch(exp, parse, npar); r.Ok? && Room(3 + SizeBody(r.value))
      modifies this`parse, this`npar, this`size, this`code, prog
      ensures Valid() && ok == PBranch(exp, old(parse), old(npar)).Ok?
      ensures ok ==>
                var r := PBranch(exp, old(parse), old(npar));
                && parse == r.pos && npar == r.npar && width == PiecesWidth(r.value) && sp == PiecesSp(r.value)
                && Made() == Add(base, Opening(paren, n) + EncAlts(bs + [Branch(r.value)], -1, 0, 0))
      decreases |exp| - parse, 5
    {
      hide Compiler.Made, Add, Node, EncAlts, PBranch, EncBranch, SizeAlts, SizeBody, Opening;
      ghost var b := PBranch(exp, parse, npar);
      var br;
      ok, br, width, sp := RegBranch();
      if !ok { return; }
      AddTwice(base, Opening(paren, n) + EncAlts(bs, -1, 0, 0), EncBranch(Branch(b.value), -1, -1));
      AltLink(base, paren, n, ret, br, bs, Branch(b.value));
      RegTail(ret, br, |base.out| + |Opening(paren, n)| + LastAt(bs));
    }

    /** Make a closing node, link the last branch to it, and the tails of all branches. */
    method Close(paren: bool, ret: nat, n: nat, ghost base: Emission, ghost bs: seq<Branch>)
      requires Valid() && base.dummy == dummy && bs != [] && Room(3) && (!dummy ==> ret == |base.out|)
      requires Made() == Add(base, Opening(paren, n) + EncAlts(bs, -1, 0, 0))
      modifies this`size, this`code, prog
      ensures RegDone(paren, n, bs, base)
    {
      hide Compiler.Made, Add, Node, EncAlts, Opening, SizeAlts;
      ghost var op := if paren then CLOSE + n else END;
      AddTwice(base, Opening(paren, n) + EncAlts(bs, -1, 0, 0), Node(op, 0));
      var ender := RegNode(if paren then CLOSE + n else END);
      EnderLink(base, paren, n, ret, ender, bs);
      RegTail(ret, ender, |base.out| + |Opening(paren, n)| + LastAt(bs));
      HookTails(paren, ret, ender, n, base, bs);
    }

    /** Each branch goes on at the closing node. */
    method HookTails(paren: bool, ret: nat, ender: nat, ghost n: nat, ghost base: Emission, ghost bs: seq<Branch>)
      requires Valid() && base.dummy == dummy && bs != []
      requires !dummy ==> ret == |base.out| && ender == ret + |Opening(paren, n)| + SizeAlts(bs)
      requires Made() == Add(base, Opening(paren, n) + EncAlts(bs, 0, 0, 0) + Node(if paren then CLOSE + n else END, 0))
      modifies prog
      ensures RegDone(paren, n, bs, base)
    {
      hide Compiler.Made, Add, Node, EncAlts, SizeAlts, Opening;
      if dummy {
        SameLength(base, paren, n, bs);
        return;
      }
      ghost var op, k, open := if paren then CLOSE + n else END, 0, paren;
      var br: int := ret;
      TailsStart(paren, n, bs);
      while br != -1
        invariant Valid() && k <= |bs| && (open ==> k == 0)
        invariant Made() == Add(base, Opening(paren, n) + EncAlts(bs, 0, 0, k) + Node(op, 0))
        invariant br == -1 ==> k == |bs| && !open
        invariant br != -1 ==> br == HookAt(base, paren, n, bs, open, k) && (open ==> paren)
        decreases if br == -1 then 0 else if open then |bs| + 3 else |bs| - k + 1
      {
        HookStep(base, paren, n, ender, bs, open, k);
        RegOpTail(br, ender, HookEnd(br, bs, open, k));
        br := RegNext(br);
        if open { open := false; } else if k < |bs| { k := k + 1; }
      }
    }
  }

  // ---- Branches ----

  /** The code of the pieces of a branch so far. */
  function Body(ps: seq<Re>): seq<nat> { if ps == [] then [] else EncPieces(ps, -1) }

  function Cons(ps: seq<Re>, r: Parsed<seq<Re>>): Parsed<seq<Re>> {
    if r.Fail? then Fail else Ok(ps + r.value, r.pos, r.npar)
  }

  lemma BranchStarts(r: Parsed<seq<Re>>)
    ensures Cons([], r) == r && Body([]) == [] && Node(BRANCH, 0) + Body([]) == Node(BRANCH, 0) && !PiecesWidth([])
  {
    assert r.Ok? ==> [] + r.value == r.value;
    assert Node(BRANCH, 0) + [] == Node(BRANCH, 0);
  }

  /** One more piece, and that there is room for it. */
  lemma NextPiece(e: seq<nat>, i: nat, np: nat, ps: seq<Re>)
    requires i <= |e| && 1 <= np && Text(e) && !EndsBranch(At(e, i))
    ensures var p, r := PPiece(e, i, np), Cons(ps, PBranch(e, i, np));
            && |Body(ps)| == SizePieces(ps)
            && (p.Fail? ==> r.Fail?)
            && (p.Ok? ==> i < p.pos <= |e| && 1 <= p.npar && r == Cons(ps + [p.value], PBranch(e, p.pos, p.npar)))
            && (r.Ok? ==> p.Ok? && SizePieces(ps) + Size(p.value) <= SizeBody(r.value))
  {
    hide PPiece;
    var p := PPiece(e, i, np);
    if p.Ok? {
      var rest := PBranch(e, p.pos, p.npar);
      if rest.Ok? {
        assert ps + ([p.value] + rest.value) == ps + [p.value] + rest.value;
        SizeCat(ps + [p.value], rest.value);
        SizeCat(ps, [p.value]);
        assert [p.value][1..] == [];
        PiecesBodySize(ps + [p.value] + rest.value);
      }
    }
  }

  lemma BodyLength(ps: seq<Re>)
    ensures |Body(ps)| == SizePieces(ps)
  {
  }

  lemma PiecesBodySize(ps: seq<Re>)
    requires ps != []
    ensures SizeBody(ps) == SizePieces(ps)
  {
  }

  lemma BranchEnds(e: seq<nat>, i: nat, np: nat, ps: seq<Re>)
    requires i <= |e| && 1 <= np && Text(e) && EndsBranch(At(e, i))
    ensures Cons(ps, PBranch(e, i, np)) == Ok(ps, i, np) && |Body(ps)| == SizePieces(ps)
    ensures (ps == [] ==> SizeBody(ps) == 3 && SizePieces(ps) == 0)
  {
    assert ps + [] == ps;
  }

  /** A new piece is linked to the one before it. */
  lemma PieceLink(base: Emission, head: seq<nat>, last: Re, y: seq<nat>, chain: nat, latest: nat)
    requires !base.dummy ==> chain == |base.out| + 3 + |head| && latest == chain + Size(last)
    ensures var m, z := Add(base, Node(BRANCH, 0) + (head + Enc(last, -1)) + y), chain + Exit(last);
            && CanTail(m, chain, latest, z)
            && Tailed(m, chain, latest, z) == Add(base, Node(BRANCH, 0) + (head + Enc(last, 0) + y))
  {
    hide Enc, Node, Size, Settable, Tail, Add, Tailed, CanTail, Exit;
    var a, b0 := base.out, Node(BRANCH, 0);
    SetOne(a + b0 + head, last, y, 0);
    PieceCat(a, b0, head, Enc(last, -1), y);
    PieceCat(a, b0, head, Enc(last, 0), y);
    Turned(base, b0 + (head + Enc(last, -1)) + y, b0 + (head + Enc(last, 0) + y), chain, latest, chain + Exit(last));
  }

  lemma BodyForms(ps: seq<Re>, x: Re)
    requires ps != []
    ensures var pre, last := ps[..|ps| - 1], ps[|ps| - 1];
            && Body(ps) == Head(pre) + Enc(last, -1) && Body(ps + [x]) == Head(pre) + Enc(last, 0) + Enc(x, -1)
            && |Head(pre)| == SizePieces(pre) && SizePieces(ps) == SizePieces(pre) + Size(last)
  {
    hide Enc, Size;
    var pre, last := ps[..|ps| - 1], ps[|ps| - 1];
    assert ps == pre + [last];
    LastPiece(pre, last, -1);
    LastPiece(pre, last, 0);
    PiecesSnoc(ps, x, -1);
  }

  function Head(pre: seq<Re>): seq<nat> { if pre == [] then [] else EncPieces(pre, 0) }

  lemma LastPiece(pre: seq<Re>, last: Re, k: int)
    ensures EncPieces(pre + [last], k) == Head(pre) + Enc(last, k)
    ensures |Head(pre)| == SizePieces(pre) && SizePieces(pre + [last]) == SizePieces(pre) + Size(last)
  {
    hide Enc, Size;
    SizeCat(pre, [last]);
    assert [last][1..] == [];
    if pre == [] {
      assert pre + [last] == [last] && EncPieces([last], k) == Enc(last, k);
    } else {
      PiecesSnoc(pre, last, k);
    }
  }

  lemma PieceCat(a: seq<nat>, b: seq<nat>, h: seq<nat>, e: seq<nat>, x: seq<nat>)
    ensures a + b + h + e + x == a + (b + (h + e) + x) && a + b + h + e + x == a + (b + (h + e + x))
  {
  }

  lemma {:induction false} WidthSnoc(ps: seq<Re>, x: Re)
    ensures PiecesWidth(ps + [x]) == (PiecesWidth(ps) || HasWidth(x))
    ensures PiecesSp(ps + [x]) == (if ps == [] then SpStart(x) else PiecesSp(ps))
    decreases |ps|
  {
    var v := ps + [x];
    if ps != [] {
      assert v[1..] == ps[1..] + [x];
      WidthSnoc(ps[1..], x);
    } else {
      assert v[1..] == [];
    }
  }

  lemma BodyFirst(x: Re)
    ensures Node(BRANCH, 0) + Body([]) + Enc(x, -1) == Node(BRANCH, 0) + Body([x])
    ensures [] + [x] == [x] && SizePieces([]) == 0
  {
    assert Body([]) == [] && EncPieces([x], -1) == Enc(x, -1);
    assert Node(BRANCH, 0) + [] == Node(BRANCH, 0);
  }

  lemma BranchIs(ps: seq<Re>)
    ensures EncBranch(Branch(ps), -1, -1) == if ps == [] then Node(BRANCH, 0) + Body(ps) + Node(NOTHING, 0)
            else Node(BRANCH, 0) + Body(ps)
  {
    hide Node, EncPieces;
    assert Node(BRANCH, 0) + [] == Node(BRANCH, 0);
  }

  lemma {:induction false} SizeCat(a: seq<Re>, b: seq<Re>)
    ensures SizePieces(a + b) == SizePieces(a) + SizePieces(b)
    decreases |a|
  {
    hide Size;
    if a == [] { assert a + b == b; } else { assert (a + b)[1..] == a[1..] + b; SizeCat(a[1..], b); }
  }

  // ---- Alternatives ----

  function Opening(paren: bool, n: nat): seq<nat> { if paren then Node(OPEN + n, 3) else [] }

  /** What follows a branch. */
  function More(e: seq<nat>, i: nat, np: nat): Parsed<seq<Branch>>
    requires i <= |e| && 1 <= np && Text(e)
  {
    if At(e, i) == BAR then PAlts(e, i + 1, np) else Ok([], i, np)
  }

  function ConsAlts(bs: seq<Branch>, r: Parsed<seq<Branch>>): Parsed<seq<Branch>> {
    if r.Fail? then Fail else Ok(bs + r.value, r.pos, r.npar)
  }

  lemma FirstAlt(e: seq<nat>, i: nat, np: nat)
    requires i <= |e| && 1 <= np && Text(e)
    ensures var b, r := PBranch(e, i, np), PAlts(e, i, np);
            && (b.Fail? ==> r.Fail?)
            && (b.Ok? ==> r == ConsAlts([Branch(b.value)], More(e, b.pos, b.npar)))
            && (b.Ok? ==>
               AltsWidth([Branch(b.value)]) == PiecesWidth(b.value) && AltsSp([Branch(b.value)]) == PiecesSp(b.value))
            && (r.Ok? ==> b.Ok? && 3 + SizeBody(b.value) <= SizeAlts(r.value))
  {
    hide PBranch, SizeBody;
    var b := PBranch(e, i, np);
    if b.Ok? {
      var one := [Branch(b.value)];
      assert one + [] == one && one[1..] == [];
      var m := More(e, b.pos, b.npar);
      if m.Ok? { SizeAltsCat(one, m.value); LastBranch(Branch(b.value), 0); }
    }
  }

  lemma NextAlt(e: seq<nat>, i: nat, np: nat, bs: seq<Branch>)
    requires 0 < i <= |e| && 1 <= np && Text(e)
    ensures var b, r := PBranch(e, i, np), ConsAlts(bs, PAlts(e, i, np));
            && (b.Fail? ==> r.Fail?)
            && (b.Ok? ==> r == ConsAlts(bs + [Branch(b.value)], More(e, b.pos, b.npar)))
            && (r.Ok? ==> b.Ok? && SizeAlts(bs) + 3 + SizeBody(b.value) <= SizeAlts(r.value))
  {
    FirstAlt(e, i, np);
    hide PBranch, PAlts, SizeBody, SizeAlts;
    var b := PBranch(e, i, np);
    if b.Ok? {
      var m := More(e, b.pos, b.npar);
      if m.Ok? {
        assert bs + ([Branch(b.value)] + m.value) == bs + [Branch(b.value)] + m.value;
        SizeAltsCat(bs, [Branch(b.value)] + m.value);
      }
    }
  }

  lemma MoreEnds(e: seq<nat>, i: nat, np: nat, bs: seq<Branch>)
    requires i <= |e| && 1 <= np && Text(e) && At(e, i) != BAR
    ensures ConsAlts(bs, More(e, i, np)) == Ok(bs, i, np)
  {
    assert bs + [] == bs;
  }

  lemma {:induction false} AltsFlags(bs: seq<Branch>, b: Branch)
    ensures AltsWidth(bs + [b]) == (AltsWidth(bs) && PiecesWidth(b.ps))
    ensures AltsSp(bs + [b]) == (AltsSp(bs) || PiecesSp(b.ps))
    decreases |bs|
  {
    var v := bs + [b];
    if bs != [] {
      assert v[1..] == bs[1..] + [b];
      AltsFlags(bs[1..], b);
    } else {
      assert v[1..] == [];
    }
  }

  /** The opening node is linked to the first branch. */
  lemma FirstLink(base: Emission, paren: bool, n: nat, ret: nat, br: nat, ps: seq<Re>)
    requires !base.dummy ==> ret == |base.out| && (paren ==> br == ret + 3)
    ensures var e := EncBranch(Branch(ps), -1, -1);
            var m := Add(Add(base, if paren then Node(OPEN + n, 0) else []), e);
            var m' := Add(base, Opening(paren, n) + EncAlts([Branch(ps)], -1, 0, 0));
            if paren then CanTail(m, ret, br, ret) && Tailed(m, ret, br, ret) == m' else m == m'
  {
    hide Node, Add, Tailed, CanTail, EncAlts, Settable, Tail, EncBody, SizeBody;
    LastBranch(Branch(ps), -1);
    var e := EncBranch(Branch(ps), -1, -1);
    AddTwice(base, if paren then Node(OPEN + n, 0) else [], e);
    if paren {
      SetNode(base.out, OPEN + n, e, |base.out| + 3);
      Turned(base, Node(OPEN + n, 0) + e, Node(OPEN + n, 3) + e, ret, br, ret);
    }
  }

  /** From the opening node the chain goes on to the first branch. */
  lemma FromOpen(a: seq<nat>, paren: bool, n: nat, w: seq<nat>, val: nat, z: nat)
    requires Settable(a + Opening(paren, n) + w, |a| + |Opening(paren, n)|, val, z)
    ensures a + Opening(paren, n) + w == a + (Opening(paren, n) + w)
    ensures Settable(a + (Opening(paren, n) + w), |a|, val, z)
  {
    hide Node, Next;
    var c := a + (Opening(paren, n) + w);
    assert a + Opening(paren, n) + w == c;
    if paren {
      NodeIn(a, OPEN + n, 3, w, 0);
      ChainOn(c, |a|, |a| + 3, z);
    }
  }

  lemma LastLink(base: Emission, paren: bool, n: nat, ret: nat, val: nat, bs: seq<Branch>, b: seq<nat>)
    requires bs != [] && |b| >= 0
    requires !base.dummy ==> ret == |base.out| && val == ret + |Opening(paren, n)| + SizeAlts(bs)
    ensures var m, z := Add(base, Opening(paren, n) + EncAlts(bs, -1, 0, 0) + b),
            |base.out| + |Opening(paren, n)| + LastAt(bs);
            && CanTail(m, ret, val, z)
            && Tailed(m, ret, val, z) == Add(base, Opening(paren, n) + EncAlts(bs, 0, 0, 0) + b)
  {
    hide Node, Add, Tailed, CanTail, EncAlts, SetOff, Next, Opening, SizeAlts, LastAt;
    var a, o := base.out, Opening(paren, n);
    var w, v := EncAlts(bs, -1, 0, 0) + b, EncAlts(bs, 0, 0, 0) + b;
    LinkLast(a + o, bs, b, 0);
    assert a + o + EncAlts(bs, -1, 0, 0) + b == a + o + w && a + o + EncAlts(bs, 0, 0, 0) + b == a + o + v;
    var z := |a| + |o| + LastAt(bs);
    var at := |a| + |o| + SizeAlts(bs);
    hide Chain;
    FromOpen(a, paren, n, w, at, z);
    assert o + EncAlts(bs, -1, 0, 0) + b == o + w && o + EncAlts(bs, 0, 0, 0) + b == o + v && a + o + v == a + (o + v);
    Turned(base, o + w, o + v, ret, val, z);
  }

  lemma AltLink(base: Emission, paren: bool, n: nat, ret: nat, br: nat, bs: seq<Branch>, b: Branch)
    requires bs != [] && (!base.dummy ==> ret == |base.out| && br == ret + |Opening(paren, n)| + SizeAlts(bs))
    ensures var m, z := Add(base, Opening(paren, n) + EncAlts(bs, -1, 0, 0) + EncBranch(b, -1, -1)),
            |base.out| + |Opening(paren, n)| + LastAt(bs);
            && CanTail(m, ret, br, z)
            && Tailed(m, ret, br, z) == Add(base, Opening(paren, n) + EncAlts(bs + [b], -1, 0, 0))
  {
    hide Add, Tailed, CanTail, EncAlts, EncBranch, Opening, SizeAlts, LastAt;
    LastLink(base, paren, n, ret, br, bs, EncBranch(b, -1, -1));
    AltsSnoc(bs, b);
    Cat(Opening(paren, n), EncAlts(bs, 0, 0, 0), EncBranch(b, -1, -1));
  }

  lemma EnderLink(base: Emission, paren: bool, n: nat, ret: nat, ender: nat, bs: seq<Branch>)
    requires bs != [] && (!base.dummy ==> ret == |base.out| && ender == ret + |Opening(paren, n)| + SizeAlts(bs))
    ensures var e := Node(if paren then CLOSE + n else END, 0);
            var m, z := Add(base, Opening(paren, n) + EncAlts(bs, -1, 0, 0) + e),
                |base.out| + |Opening(paren, n)| + LastAt(bs);
            && CanTail(m, ret, ender, z)
            && Tailed(m, ret, ender, z) == Add(base, Opening(paren, n) + EncAlts(bs, 0, 0, 0) + e)
  {
    hide Add, Tailed, CanTail, EncAlts, Opening, SizeAlts, LastAt, Node;
    LastLink(base, paren, n, ret, ender, bs, Node(if paren then CLOSE + n else END, 0));
  }

  /** While counting, links make no difference. */
  lemma SameLength(base: Emission, paren: bool, n: nat, bs: seq<Branch>)
    requires base.dummy
    ensures var e := Node(if paren then CLOSE + n else END, 0);
            Add(base, Opening(paren, n) + EncAlts(bs, 0, 0, 0) + e) ==
                Add(base, Opening(paren, n) + EncAlts(bs, 0, 0, |bs|) + e)
  {
    hide EncAlts, Node;
  }

  lemma TailsStart(paren: bool, n: nat, bs: seq<Branch>)
    ensures SizeAlts(bs[..0]) == 0 && |Opening(paren, n)| == if paren then 3 else 0
  {
  }

  /** What the hooking loop finds: first the opening node. */
  lemma OpenNode(base: Emission, n: nat, bs: seq<Branch>, op: nat)
    requires !base.dummy
    ensures var m, p := Add(base, Opening(true, n) + EncAlts(bs, 0, 0, 0) + Node(op, 0)), |base.out|;
            p + 2 < |m.out| && m.out[p] != BRANCH && Next(m.out, p) == p + 3 + SizeAlts(bs[..0])
  {
    hide EncAlts, Node, Next;
    var w := EncAlts(bs, 0, 0, 0) + Node(op, 0);
    NodeIn(base.out, OPEN + n, 3, w, 0);
    assert Node(OPEN + n, 3) + EncAlts(bs, 0, 0, 0) + Node(op, 0) == Node(OPEN + n, 3) + w;
  }

  /** Then each branch in turn. */
  lemma TailLink(base: Emission, paren: bool, n: nat, ender: nat, bs: seq<Branch>, op: nat, k: nat)
    requires !base.dummy && k < |bs| && ender == |base.out| + |Opening(paren, n)| + SizeAlts(bs)
    ensures var m, p := Add(base, Opening(paren, n) + EncAlts(bs, 0, 0, k) + Node(op, 0)),
            |base.out| + |Opening(paren, n)| + SizeAlts(bs[..k]);
            var z := p + 3 + ExitBody(bs[k].ps);
            && p < |m.out| && m.out[p] == BRANCH && CanTail(m, p + 3, ender, z)
            && Tailed(m, p + 3, ender, z) == Add(base, Opening(paren, n) + EncAlts(bs, 0, 0, k + 1) + Node(op, 0))
  {
    hide Node, Tailed, CanTail, EncAlts, SetOff, Next, Opening, SizeAlts, Chain, ExitBody;
    var a, o, e := base.out, Opening(paren, n), Node(op, 0);
    var p := |a| + |o| + SizeAlts(bs[..k]);
    LinkNth(a + o, bs, k, e);
    CatThree(a, o, EncAlts(bs, 0, 0, k), e);
    CatThree(a, o, EncAlts(bs, 0, 0, k + 1), e);
    Turned(base, o + EncAlts(bs, 0, 0, k) + e, o + EncAlts(bs, 0, 0, k + 1) + e, p + 3, ender,
        p + 3 + ExitBody(bs[k].ps));
  }

  lemma CatThree(a: seq<nat>, o: seq<nat>, w: seq<nat>, e: seq<nat>)
    ensures a + o + w + e == a + (o + w + e)
  {
  }

  lemma TailNext(base: Emission, paren: bool, n: nat, bs: seq<Branch>, op: nat, k: nat)
    requires !base.dummy && k < |bs|
    ensures var m, p := Add(base, Opening(paren, n) + EncAlts(bs, 0, 0, k + 1) + Node(op, 0)),
            |base.out| + |Opening(paren, n)| + SizeAlts(bs[..k]);
            p + 2 < |m.out| && Next(m.out, p) == |base.out| + |Opening(paren, n)| + SizeAlts(bs[..k + 1])
  {
    hide Node, EncAlts, Next, Opening, SizeAlts, EncBody, SizeBody;
    var a, o, e := base.out, Opening(paren, n), Node(op, 0);
    var pre, rest, b := bs[..k], bs[k + 1..], bs[k];
    NthForm(bs, k, k + 1);
    var head, body, tail := EncAlts(pre, 0, SizeAlts([b] + rest), k), EncBody(b.ps, SizeAlts(rest)),
        EncAlts(rest, 0, 0, 0);
    var node := Node(BRANCH, 3 + SizeBody(b.ps));
    CatSix(a + o, head, node, body, tail, e);
    CatThree(a, o, EncAlts(bs, 0, 0, k + 1), e);
    NodeIn(a + o + head, BRANCH, 3 + SizeBody(b.ps), body + (tail + e), 0);
  }

  /** Last the closing node, which leads nowhere yet. */
  lemma EnderNode(base: Emission, paren: bool, n: nat, bs: seq<Branch>, op: nat)
    requires !base.dummy && op != BRANCH
    ensures bs[..|bs|] == bs
    ensures var m, p := Add(base, Opening(paren, n) + EncAlts(bs, 0, 0, |bs|) + Node(op, 0)),
            |base.out| + |Opening(paren, n)| + SizeAlts(bs);
            p + 2 < |m.out| && m.out[p] != BRANCH && Next(m.out, p) == -1
  {
    hide Node, EncAlts, Next, Opening, SizeAlts;
    var a, o, w := base.out, Opening(paren, n), EncAlts(bs, 0, 0, |bs|);
    NodeIn(a + o + w, op, 0, [], 0);
    assert a + o + w + (Node(op, 0) + []) == a + (o + w + Node(op, 0));
  }

  /** Where the hooking loop is: at the opening node, at branch k, or at the closing node. */
  ghost function HookAt(base: Emission, paren: bool, n: nat, bs: seq<Branch>, open: bool, k: nat): nat
    requires k <= |bs|
  {
    if open then |base.out| else |base.out| + |Opening(paren, n)| + SizeAlts(bs[..k])
  }

  ghost function HookEnd(br: nat, bs: seq<Branch>, open: bool, k: nat): nat {
    if !open && k < |bs| then br + 3 + ExitBody(bs[k].ps) else 0
  }

  /** One turn of the hooking loop: what it does to m, and where it goes on. */
  ghost predicate Hooks(m: Emission, m': Emission, br: nat, ender: nat, z: nat, branch: bool, next: int) {
    && br < |m.out| && (m.out[br] == BRANCH <==> branch)
    && (branch ==> CanTail(m, br + 3, ender, z) && Tailed(m, br + 3, ender, z) == m')
    && (!branch ==> m' == m)
    && br + 2 < |m'.out| && Next(m'.out, br) == next
  }

  lemma HookStep(base: Emission, paren: bool, n: nat, ender: nat, bs: seq<Branch>, open: bool, k: nat)
    requires !base.dummy && k <= |bs| && (open ==> k == 0 && paren)
    requires ender == |base.out| + |Opening(paren, n)| + SizeAlts(bs)
    ensures var op := if paren then CLOSE + n else END;
            var k' := if !open && k < |bs| then k + 1 else k;
            Hooks(Add(base, Opening(paren, n) + EncAlts(bs, 0, 0, k) + Node(op, 0)),
                  Add(base, Opening(paren, n) + EncAlts(bs, 0, 0, k') + Node(op, 0)),
                  HookAt(base, paren, n, bs, open, k), ender, HookEnd(HookAt(base, paren, n, bs, open, k), bs, open, k),
                  !open && k < |bs|, if !open && k == |bs| then -1 else HookAt(base, paren, n, bs, false, k'))
  {
    hide EncAlts, Node, Next, Opening, SizeAlts, CanTail, Tailed, ExitBody, Add;
    var op := if paren then CLOSE + n else END;
    TailsStart(paren, n, bs);
    if open {
      OpenNode(base, n, bs, op);
    } else if k < |bs| {
      TailLink(base, paren, n, ender, bs, op, k);
      TailNext(base, paren, n, bs, op, k);
    } else {
      EnderNode(base, paren, n, bs, op);
    }
  }

  lemma BeforeTwice(a: seq<nat>, b: seq<nat>, r: Parsed<seq<nat>>)
    ensures Before(a, Before(b, r)) == Before(a + b, r) && Before([], r) == r
  {
    assert r.Ok? ==> [] + r.value == r.value && a + (b + r.value) == a + b + r.value;
  }

  // ---- The links of the looped forms ----

  lemma StartsNode(base: Emission, op: nat, off: nat, b: seq<nat>)
    requires !base.dummy
    ensures var m := Add(base, Node(op, off) + b); |base.out| < |m.out| && m.out[|base.out|] == op
  {
  }

  /** Setting the next pointer of the node at z turns w into v. */
  ghost predicate Hooked(base: Emission, w: seq<nat>, v: seq<nat>, p: nat, val: nat, z: nat) {
    CanTail(Add(base, w), p, val, z) && Tailed(Add(base, w), p, val, z) == Add(base, v)
  }

  ghost predicate BeginsAt(base: Emission, w: seq<nat>, lo: nat, op: nat) {
    !base.dummy ==> lo < |Add(base, w).out| && Add(base, w).out[lo] == op
  }

  lemma StarLinks(base: Emission, lo: nat, back: nat, y: Re)
    requires !base.dummy ==> lo == |base.out| && back == lo + 3 + Size(y)
    ensures var w1, w2 := Node(BRANCH, 0) + Enc(y, -1) + Node(BACK, 0), Node(BRANCH, 0) + Enc(y, 0) + Node(BACK, 0);
            && Hooked(base, w1, w2, lo + 3, back, lo + 3 + Exit(y)) && BeginsAt(base, w1, lo, BRANCH)
            && Hooked(base, w2, Node(BRANCH, 0) + (Enc(y, 0) + Node(BACK, 3 + Size(y))), lo + 3, lo, lo + 3 + Size(y))
            && BeginsAt(base, w2, lo, BRANCH)
  {
    hide Enc, Node, Size, Settable, Tail, Add, Tailed, CanTail, Exit;
    var a, b0, b1 := base.out, Node(BRANCH, 0), Node(BACK, 0);
    var w1, w2, w3 := b0 + Enc(y, -1) + b1, b0 + Enc(y, 0) + b1, b0 + (Enc(y, 0) + Node(BACK, 3 + Size(y)));
    SetOne(a + b0, y, b1, 0);
    StarBack(a, y);
    StarAssoc(a, b0, Enc(y, -1), b1);
    StarAssoc(a, b0, Enc(y, 0), b1);
    StarAssoc(a, b0, Enc(y, 0), Node(BACK, 3 + Size(y)));
    Turned(base, w1, w2, lo + 3, back, lo + 3 + Exit(y));
    Turned(base, w2, w3, lo + 3, lo, lo + 3 + Size(y));
    if !base.dummy {
      StartsNode(base, BRANCH, 0, Enc(y, -1) + b1);
      StartsNode(base, BRANCH, 0, Enc(y, 0) + b1);
    }
  }

  lemma StarAssoc(a: seq<nat>, b: seq<nat>, e: seq<nat>, c: seq<nat>)
    ensures a + b + e + c == a + (b + e + c) == a + (b + (e + c)) && b + e + c == b + (e + c)
  {
  }

  lemma BranchLink(base: Emission, lo: nat, second: nat, w: seq<nat>)
    requires !base.dummy ==> lo == |base.out| && second == lo + 3 + |w|
    ensures var w1, w2 := Node(BRANCH, 0) + w + Node(BRANCH, 0), Node(BRANCH, 3 + |w|) + w + Node(BRANCH, 0);
            CanTail(Add(base, w1), lo, second, lo) && Tailed(Add(base, w1), lo, second, lo) == Add(base, w2)
  {
    hide Node, Settable, Tail, Add, Tailed, CanTail;
    var w1, w2 := Node(BRANCH, 0) + w + Node(BRANCH, 0), Node(BRANCH, 3 + |w|) + w + Node(BRANCH, 0);
    BranchOn(base.out, w);
    StarAssoc(base.out, Node(BRANCH, 0), w, Node(BRANCH, 0));
    StarAssoc(base.out, Node(BRANCH, 3 + |w|), w, Node(BRANCH, 0));
    Turned(base, w1, w2, lo, second, lo);
  }

  lemma NothingLink(base: Emission, lo: nat, second: nat, last: nat, w: seq<nat>)
    requires !base.dummy ==> lo == |base.out| && second == lo + 3 + |w| && last == second + 3
    ensures var w1 := Node(BRANCH, 3 + |w|) + w + Node(BRANCH, 0) + Node(NOTHING, 0);
            && CanTail(Add(base, w1), lo, last, second)
            && Tailed(Add(base, w1), lo, last, second)
               == Add(base, Node(BRANCH, 3 + |w|) + w + (Node(BRANCH, 3) + Node(NOTHING, 0)))
  {
    hide Node, Settable, Tail, Add, Tailed, CanTail;
    var a, b := base.out, Node(BRANCH, 3 + |w|);
    BranchEnd(a, w);
    FourAssoc(a, b, w, Node(BRANCH, 0), Node(NOTHING, 0));
    StarAssoc(a, b, w, Node(BRANCH, 3) + Node(NOTHING, 0));
    Turned(base, b + w + Node(BRANCH, 0) + Node(NOTHING, 0), b + w + (Node(BRANCH, 3) + Node(NOTHING, 0)), lo, last,
        second);
  }

  lemma StarCat(b0: seq<nat>, e: seq<nat>, b1: seq<nat>, b2: seq<nat>, b3: seq<nat>)
    ensures b0 + (e + b1) + (b2 + b3) == b0 + e + (b1 + b2 + b3)
  {
  }

  lemma OptLinks(base: Emission, lo: nat, next: nat, y: Re)
    requires !base.dummy ==> lo == |base.out| && next == lo + 6 + Size(y)
    ensures var w := Node(BRANCH, 3 + Size(y)) + Enc(y, -1) + (Node(BRANCH, 3) + Node(NOTHING, 0));
            && CanTail(Add(base, w), lo + 3, next, lo + 3 + Exit(y))
            && Tailed(Add(base, w), lo + 3, next, lo + 3 + Exit(y)) == Add(base, Enc(Opt(y), -1))
            && (!base.dummy ==> lo < |Add(base, w).out| && Add(base, w).out[lo] == BRANCH)
  {
    hide Enc, Node, Size, Settable, Tail, Add, Tailed, CanTail, Exit;
    var a, b0, t := base.out, Node(BRANCH, 3 + Size(y)), Node(BRANCH, 3) + Node(NOTHING, 0);
    OptForm(y, -1);
    SetOne(a + b0, y, t, 3);
    StarAssoc(a, b0, Enc(y, -1), t);
    StarAssoc(a, b0, Enc(y, 3), t);
    Turned(base, b0 + Enc(y, -1) + t, b0 + Enc(y, 3) + t, lo + 3, next, lo + 3 + Exit(y));
    if !base.dummy { StartsNode(base, BRANCH, 3 + Size(y), Enc(y, -1) + t); }
  }

  lemma PlusFirstLink(base: Emission, lo: nat, next: nat, y: Re)
    requires !base.dummy ==> lo == |base.out| && next == lo + Size(y)
    ensures var w := Enc(y, -1) + Node(BRANCH, 0);
            && CanTail(Add(base, w), lo, next, lo + Exit(y))
            && Tailed(Add(base, w), lo, next, lo + Exit(y)) == Add(base, Enc(y, 0) + Node(BRANCH, 0))
  {
    hide Enc, Node, Size, Settable, Tail, Add, Tailed, CanTail, Exit;
    var a, b0 := base.out, Node(BRANCH, 0);
    SetOne(a, y, b0, 0);
    assert a + Enc(y, -1) + b0 == a + (Enc(y, -1) + b0) && a + Enc(y, 0) + b0 == a + (Enc(y, 0) + b0);
    Turned(base, Enc(y, -1) + b0, Enc(y, 0) + b0, lo, next, lo + Exit(y));
  }

  lemma PlusBackLink(base: Emission, lo: nat, back: nat, y: Re)
    requires !base.dummy ==> lo == |base.out| && back == lo + Size(y) + 3
    ensures var w := Enc(y, 0) + Node(BRANCH, 0) + Node(BACK, 0);
            && CanTail(Add(base, w), back, lo, back)
            && Tailed(Add(base, w), back, lo, back) == Add(base, Enc(y, 0) + Node(BRANCH, 0) + Node(BACK, 3 + Size(y)))
  {
    hide Enc, Node, Size, Settable, Tail, Add, Tailed, CanTail;
    var a, e, b0, b1 := base.out, Enc(y, 0), Node(BRANCH, 0), Node(BACK, 3 + Size(y));
    PlusBack(a, y);
    StarAssoc(a, e, b0, Node(BACK, 0));
    StarAssoc(a, e, b0, b1);
    Turned(base, e + b0 + Node(BACK, 0), e + b0 + b1, back, lo, back);
  }

  lemma PlusSecondLink(base: Emission, next: nat, second: nat, y: Re)
    requires !base.dummy ==> next == |base.out| + Size(y) && second == next + 6
    ensures var w := Enc(y, 0) + Node(BRANCH, 0) + Node(BACK, 3 + Size(y)) + Node(BRANCH, 0);
            && CanTail(Add(base, w), next, second, next)
            && Tailed(Add(base, w), next, second, next)
               == Add(base, Enc(y, 0) + Node(BRANCH, 6) + Node(BACK, 3 + Size(y)) + Node(BRANCH, 0))
  {
    hide Enc, Node, Size, Settable, Tail, Add, Tailed, CanTail;
    var a, e, b0, b1 := base.out, Enc(y, 0), Node(BRANCH, 0), Node(BACK, 3 + Size(y));
    PlusOn(a, y);
    FourAssoc(a, e, b0, b1, b0);
    FourAssoc(a, e, Node(BRANCH, 6), b1, b0);
    Turned(base, e + b0 + b1 + b0, e + Node(BRANCH, 6) + b1 + b0, next, second, next);
  }

  lemma PlusSize(y: Re)
    requires !Simple(y)
    ensures |Enc(Plus(y), -1)| == Size(y) + 12
  {
    hide Enc;
  }

  lemma PlusLastLink(base: Emission, lo: nat, second: nat, last: nat, y: Re)
    requires !Simple(y) && (!base.dummy ==> lo == |base.out| && second == lo + Size(y) + 6 && last == second + 3)
    ensures var w := Enc(y, 0) + Node(BRANCH, 6) + Node(BACK, 3 + Size(y)) + Node(BRANCH, 0) + Node(NOTHING, 0);
            CanTail(Add(base, w), lo, last, second)
                && Tailed(Add(base, w), lo, last, second) == Add(base, Enc(Plus(y), -1))
  {
    hide Enc, Node, Size, Settable, Tail, Add, Tailed, CanTail, Exit;
    PlusEnd(base.out, y);
    PlusSize(y);
    FiveCat(base.out, Enc(y, 0), Node(BRANCH, 6), Node(BACK, 3 + Size(y)), Node(BRANCH, 0), Node(NOTHING, 0));
    Turned(base, Enc(y, 0) + Node(BRANCH, 6) + Node(BACK, 3 + Size(y)) + Node(BRANCH, 0) + Node(NOTHING, 0),
           Enc(Plus(y), -1), lo, last, second);
  }

  lemma ThreeParts(c: seq<nat>, k: nat)
    requires k + 3 <= |c|
    ensures c == c[..k] + c[k..k + 3] + c[k + 3..]
  {
  }

  lemma FiveCat(a: seq<nat>, b: seq<nat>, c: seq<nat>, d: seq<nat>, e: seq<nat>, f: seq<nat>)
    ensures a + b + c + d + e + f == a + (b + c + d + e + f)
  {
  }

  lemma FourAssoc(a: seq<nat>, e: seq<nat>, b: seq<nat>, c: seq<nat>, d: seq<nat>)
    ensures a + e + b + c + d == a + (e + b + c + d)
  {
  }

  lemma OneByte(n: nat)
    requires n < 65536
    ensures n / 256 % 256 == n / 256
  {
  }
}
