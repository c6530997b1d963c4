/**
 Regular expressions as the compiler of cawf reads them: their syntax trees and the
 parser as a function.  Characters are bytes; the byte after the last one is 0.
 */
module ReSyntax {

  datatype Re =
    | Bol
    | Eol
    | AnyChar
    | Lit(str: seq<nat>)
    | Class(neg: bool, chars: seq<nat>)
    | Group(n: nat, alts: seq<Branch>)
    | Star(x: Re)
    | Plus(x: Re)
    | Opt(x: Re)

  /** One alternative: pieces one after the other. */
  datatype Branch = Branch(ps: seq<Re>)

  const NSUBEXP: nat := 10

  const CARET: nat := '^' as int
  const DOLLAR: nat := '$' as int
  const DOT: nat := '.' as int
  const LBRACKET: nat := '[' as int
  const RBRACKET: nat := ']' as int
  const MINUS: nat := '-' as int
  const LPAREN: nat := '(' as int
  const RPAREN: nat := ')' as int
  const BAR: nat := '|' as int
  const QUEST: nat := '?' as int
  const PLUS_SIGN: nat := '+' as int
  const ASTERISK: nat := '*' as int
  const BACKSLASH: nat := '\\' as int

  /** A string of C: no null bytes. */
  ghost predicate Text(e: seq<nat>) { forall i :: 0 <= i < |e| ==> 0 < e[i] < 256 }

  function At(e: seq<nat>, i: nat): nat { if i < |e| then e[i] else 0 }

  /** ISMULT */
  predicate IsMult(c: nat) { c == ASTERISK || c == PLUS_SIGN || c == QUEST }

  /** META */
  predicate IsMeta(c: nat) {
    c in {CARET, DOLLAR, DOT, LBRACKET, LPAREN, RPAREN, BAR, QUEST, PLUS_SIGN, ASTERISK, BACKSLASH}
  }

  // ---- What the compiler keeps track of while parsing ----

  /** HASWIDTH: cannot match the empty string. */
  predicate HasWidth(x: Re) {
    match x
    case Bol => false
    case Eol => false
    case Group(_, alts) => AltsWidth(alts)
    case Star(_) => false
    case Opt(_) => false
    case _ => true
  }

  predicate PiecesWidth(ps: seq<Re>) { ps != [] && (HasWidth(ps[0]) || PiecesWidth(ps[1..])) }

  predicate AltsWidth(bs: seq<Branch>) { bs == [] || (PiecesWidth(bs[0].ps) && AltsWidth(bs[1..])) }

  /** SIMPLE: one character per match. */
  predicate Simple(x: Re) { x.AnyChar? || x.Class? || (x.Lit? && |x.str| == 1) }

  /** SPSTART: may start with something repeated. */
  predicate SpStart(x: Re) {
    match x
    case Star(_) => true
    case Opt(_) => true
    case Group(_, alts) => AltsSp(alts)
    case _ => false
  }

  predicate PiecesSp(ps: seq<Re>) { ps != [] && SpStart(ps[0]) }

  predicate AltsSp(bs: seq<Branch>) { bs != [] && (PiecesSp(bs[0].ps) || AltsSp(bs[1..])) }

  predicate Atomic(x: Re) { !x.Star? && !x.Plus? && !x.Opt? }

  /** Trees the parser builds. */
  predicate Wf(x: Re) {
    match x
    case Lit(str) => str != [] && 0 !in str
    case Class(_, chars) => 0 !in chars
    case Group(n, alts) => 1 <= n < NSUBEXP && alts != [] && WfAlts(alts)
    case Star(y) => (Simple(y) || y.Group?) && HasWidth(y) && Wf(y)
    case Plus(y) => (Simple(y) || y.Group?) && HasWidth(y) && Wf(y)
    case Opt(y) => Atomic(y) && Wf(y)
    case _ => true
  }

  predicate WfPieces(ps: seq<Re>) { ps == [] || (Wf(ps[0]) && WfPieces(ps[1..])) }

  predicate WfAlts(bs: seq<Branch>) { bs == [] || (WfPieces(bs[0].ps) && WfAlts(bs[1..])) }

  // ---- The parser ----

  datatype Parsed<T> = Fail | Ok(value: T, pos: nat, npar: nat)

  /** The characters from lo to hi. */
  function Range(lo: nat, hi: nat): (r: seq<nat>)
    ensures |r| == if lo > hi then 0 else hi - lo + 1
    ensures forall c :: c in r <==> lo <= c <= hi
    decreases hi + 1 - lo
  {
    if lo > hi then [] else [lo] + Range(lo + 1, hi)
  }

  /** The rest of a bracket expression, after its first character. */
  function PClass(e: seq<nat>, i: nat): (r: Parsed<seq<nat>>)
    requires 1 <= i <= |e| && Text(e)
    ensures r.Ok? ==> i < r.pos <= |e| && 0 !in r.value
    decreases |e| - i
  {
    if At(e, i) == 0 then Fail
    else if e[i] == RBRACKET then Ok([], i + 1, 0)
    else if e[i] == MINUS && At(e, i + 1) != RBRACKET && At(e, i + 1) != 0 then
      var lo, hi := e[i - 1] + 1, e[i + 1];
      if lo > hi + 1 then Fail else Before(Range(lo, hi), PClass(e, i + 2))
    else Before([e[i]], PClass(e, i + 1))
  }

  function Before(w: seq<nat>, r: Parsed<seq<nat>>): (r': Parsed<seq<nat>>)
    ensures r'.Ok? == r.Ok? && (r.Ok? ==> r' == Ok(w + r.value, r.pos, r.npar))
  {
    if r.Ok? then Ok(w + r.value, r.pos, r.npar) else Fail
  }

  /** A bracket expression, after the opening bracket and the caret. */
  function PSet(e: seq<nat>, i: nat): (r: Parsed<seq<nat>>)
    requires 1 <= i <= |e| && Text(e)
    ensures r.Ok? ==> i < r.pos <= |e| && 0 !in r.value
  {
    if At(e, i) == RBRACKET || At(e, i) == MINUS then Before([e[i]], PClass(e, i + 1)) else PClass(e, i)
  }

  /** strcspn with META: how many ordinary characters follow. */
  function Ordinary(e: seq<nat>, i: nat): (n: nat)
    requires i <= |e|
    ensures i + n <= |e| && forall k :: i <= k < i + n ==> !IsMeta(e[k])
    ensures i + n < |e| ==> IsMeta(e[i + n])
    decreases |e| - i
  {
    if i == |e| || IsMeta(e[i]) then 0 else 1 + Ordinary(e, i + 1)
  }

  function LitLen(e: seq<nat>, i: nat): (n: nat)
    requires i < |e| && !IsMeta(e[i])
    ensures 1 <= n && i + n <= |e| && (n > 1 ==> !IsMult(At(e, i + n)))
  {
    var n := Ordinary(e, i);
    if n > 1 && IsMult(At(e, i + n)) then n - 1 else n
  }

  function PAtom(e: seq<nat>, i: nat, np: nat): (r: Parsed<Re>)
    requires i <= |e| && 1 <= np && Text(e)
    ensures r.Ok? ==> i < r.pos <= |e| && np <= r.npar && Atomic(r.value) && Wf(r.value)
    ensures r.Ok? && r.value.Lit? && |r.value.str| > 1 ==> !IsMult(At(e, r.pos))
    decreases |e| - i, 0
  {
    var c := At(e, i);
    if c == CARET then Ok(Bol, i + 1, np)
    else if c == DOLLAR then Ok(Eol, i + 1, np)
    else if c == DOT then Ok(AnyChar, i + 1, np)
    else if c == LBRACKET then
      var neg := At(e, i + 1) == CARET;
      var r := PSet(e, if neg then i + 2 else i + 1);
      if r.Ok? then Ok(Class(neg, r.value), r.pos, np) else Fail
    else if c == LPAREN then
      if np >= NSUBEXP then Fail else
      var r := PReg(e, i + 1, true, np + 1);
      if r.Ok? then Ok(Group(np, r.value), r.pos, r.npar) else Fail
    else if c == 0 || c == BAR || c == RPAREN || IsMult(c) then Fail
    else if c == BACKSLASH then
      if At(e, i + 1) == 0 then Fail else Ok(Lit([e[i + 1]]), i + 2, np)
    else
      var n := LitLen(e, i);
      Ok(Lit(e[i..i + n]), i + n, np)
  }

  function Repeated(x: Re, op: nat): Re {
    if op == ASTERISK then Star(x) else if op == PLUS_SIGN then Plus(x) else Opt(x)
  }

  function PPiece(e: seq<nat>, i: nat, np: nat): (r: Parsed<Re>)
    requires i <= |e| && 1 <= np && Text(e)
    ensures r.Ok? ==> i < r.pos <= |e| && np <= r.npar && Wf(r.value)
    decreases |e| - i, 1
  {
    var a := PAtom(e, i, np);
    if a.Fail? then Fail else
    var op := At(e, a.pos);
    if !IsMult(op) then a
    else if !HasWidth(a.value) && op != QUEST then Fail
    else if IsMult(At(e, a.pos + 1)) then Fail
    else Ok(Repeated(a.value, op), a.pos + 1, a.npar)
  }

  predicate EndsBranch(c: nat) { c == 0 || c == BAR || c == RPAREN }

  function PBranch(e: seq<nat>, i: nat, np: nat): (r: Parsed<seq<Re>>)
    requires i <= |e| && 1 <= np && Text(e)
    ensures r.Ok? ==> i <= r.pos <= |e| && np <= r.npar && WfPieces(r.value) && EndsBranch(At(e, r.pos))
    decreases |e| - i, 2
  {
    if EndsBranch(At(e, i)) then Ok([], i, np) else
    var p := PPiece(e, i, np);
    if p.Fail? then Fail else
    var rest := PBranch(e, p.pos, p.npar);
    if rest.Fail? then Fail else Ok([p.value] + rest.value, rest.pos, rest.npar)
  }

  function PAlts(e: seq<nat>, i: nat, np: nat): (r: Parsed<seq<Branch>>)
    requires i <= |e| && 1 <= np && Text(e)
    ensures r.Ok? ==> i <= r.pos <= |e| && np <= r.npar && r.value != [] && WfAlts(r.value)
    ensures r.Ok? ==> At(e, r.pos) == 0 || At(e, r.pos) == RPAREN
    decreases |e| - i, 3
  {
    var b := PBranch(e, i, np);
    if b.Fail? then Fail else
    if At(e, b.pos) != BAR then Ok([Branch(b.value)], b.pos, b.npar) else
    var rest := PAlts(e, b.pos + 1, b.npar);
    if rest.Fail? then Fail else Ok([Branch(b.value)] + rest.value, rest.pos, rest.npar)
  }

  /** reg: a whole expression, or what stands between parentheses. */
  function PReg(e: seq<nat>, i: nat, paren: bool, np: nat): (r: Parsed<seq<Branch>>)
    requires i <= |e| && 1 <= np && Text(e)
    ensures r.Ok? ==> i <= r.pos <= |e| && np <= r.npar && r.value != [] && WfAlts(r.value)
    ensures r.Ok? && paren ==> i < r.pos
    decreases |e| - i, 4
  {
    var a := PAlts(e, i, np);
    if a.Fail? then Fail
    else if paren then (if At(e, a.pos) == RPAREN then Ok(a.value, a.pos + 1, a.npar) else Fail)
    else (if At(e, a.pos) == 0 then a else Fail)
  }

  /** The tree of a whole pattern. */
  function Parse(e: seq<nat>): (r: Parsed<seq<Branch>>)
    requires Text(e)
    ensures r.Ok? ==> r.value != [] && WfAlts(r.value)
  {
    PReg(e, 0, false, 1)
  }
}
