/**
 decompress: the block reader (getcode), the prefix and suffix tables, and the main
 loop, which turns codes into strings back to front on a stack.
 */
module LzwDecompress {
  import opened LzwBits
  import opened LzwSpec

  const TABSIZE: nat := 65536

  /** The order in which a stack is popped. */
  function Popped(stack: Str): Str
  {
    if stack == [] then [] else [stack[|stack| - 1]] + Popped(stack[..|stack| - 1])
  }

  lemma PoppedPush(stack: Str, c: byte)
    ensures Popped(stack + [c]) == [c] + Popped(stack)
  {
    assert (stack + [c])[..|stack|] == stack;
  }

  class Decompressor {
    const p: Params
    const bytes: seq<byte>
    const tabPrefix: array<int>
    const tabSuffix: array<byte>
    const buf: array<byte>
    var pos: nat
    var offset: nat
    var size: int
    var nBits: nat
    var maxcode: nat
    var clearFlg: bool
    var freeEnt: nat
    var out: Str
    /** Bytes in the current block, and the strings that the tables spell. */
    ghost var n: nat
    ghost var dict: seq<Str>
    ghost var prev: Str

    constructor (p: Params, bytes: seq<byte>)
      requires p.Ok()
      ensures this.p == p && this.bytes == bytes && Shape() && fresh(tabPrefix) && fresh(tabSuffix) && fresh(buf)
    {
      this.p, this.bytes := p, bytes;
      tabPrefix := new int[TABSIZE];
      tabSuffix := new byte[TABSIZE];
      buf := new byte[BITS];
      pos, offset, size, nBits, maxcode, clearFlg, freeEnt, out := 0, 0, 0, INIT_BITS, 511, false, 0, [];
      n, dict, prev := 0, [], [];
    }

    ghost predicate Shape() {
      p.Ok() && tabPrefix.Length == TABSIZE && tabSuffix.Length == TABSIZE && buf.Length == BITS
      && tabSuffix != buf && tabPrefix as object != buf && tabPrefix as object != tabSuffix
    }

    ghost predicate Reader()
      reads this`pos, this`n, this`size, this`nBits, this`maxcode, this`freeEnt, this`dict
    {
      && Shape() && n <= pos <= |bytes| && n <= BITS
      && INIT_BITS <= nBits <= BITS && (nBits == BITS ==> p.maxbits == BITS)
      && maxcode == p.MaxCode(nBits)
      && freeEnt == |dict| && 256 <= |dict| <= p.Max()
      && (size == 8 * n - (nBits - 1) || (size == 0 && n == 0))
    }

    /** The abstract state of the decoder. */
    ghost function View(): (d: Dec)
      requires Reader()
      reads this, buf
      ensures DecOk(p, bytes, d)
    {
      Dec(pos - n, n, buf[..], offset, nBits, clearFlg, dict, prev, out)
    }

    /** Widen the code if the next entry needs it; a clear starts over at 9 bits. */
    method SetWidth()
      requires Reader()
      modifies this`nBits, this`maxcode, this`clearFlg
      ensures nBits == if old(clearFlg) then INIT_BITS else if freeEnt > old(maxcode) then old(nBits) + 1
              else old(nBits)
      ensures !clearFlg && INIT_BITS <= nBits <= BITS && (nBits == BITS ==> p.maxbits == BITS)
      ensures maxcode == p.MaxCode(nBits)
    {
      hide LzwBits.Pow2, Params.Max, Params.Ok;
      WideOk(p, nBits, freeEnt);
      if freeEnt > maxcode {
        nBits := nBits + 1;
        maxcode := if nBits == p.maxbits then p.Max() else Pow2(nBits) - 1;
      }
      if clearFlg {
        nBits, maxcode, clearFlg := INIT_BITS, 511, false;
      }
    }

    /** Settle the width and read the next block. */
    method NewBlock() returns (ok: bool)
      requires Reader()
      modifies this`pos, this`offset, this`size, this`nBits, this`maxcode, this`clearFlg, this`n, buf
      ensures var w := if old(clearFlg) then INIT_BITS else if freeEnt > old(maxcode) then old(nBits) + 1
              else old(nBits);
              var got := Min(w, |bytes| - old(pos));
              && ok == (got != 0)
              && (ok ==> Reader() && offset == 0 && nBits == w && n == got && pos == old(pos) + got && !clearFlg
                         && buf[..] == bytes[old(pos)..old(pos) + got] + old(buf[..])[got..])
    {
      hide Params.MaxCode, Params.Max, Params.Ok;
      SetWidth();
      var got := Min(nBits, |bytes| - pos);
      if got <= 0 { return false; }
      Fill(got);
      pos, n, offset := pos + got, got, 0;
      size := 8 * got - (nBits - 1);
      ok := true;
    }

    /** getcode; -1 at the end of the file. */
    method GetCode() returns (code: int)
      requires Reader()
      modifies this`pos, this`offset, this`size, this`nBits, this`maxcode, this`clearFlg, this`n, buf
      ensures LzwSpec.GetCode(p, bytes, old(View())).Eof? ==> code == -1
      ensures LzwSpec.GetCode(p, bytes, old(View())).Got? ==>
                Reader() && code >= 0 && LzwSpec.GetCode(p, bytes, old(View())) == Got(code, View())
    {
      hide LzwBits.GetBits, LzwBits.Pow2, Left, Params.Max;
      if clearFlg || offset >= size || freeEnt > maxcode {
        var ok := NewBlock();
        if !ok { return -1; }
      }
      code := GetBits(buf[..], offset, nBits);
      offset := offset + nBits;
    }

    /** fread: the next bytes replace the front of the buffer. */
    method Fill(got: nat)
      requires Shape() && got <= BITS && pos + got <= |bytes|
      modifies buf
      ensures buf[..] == bytes[pos..pos + got] + old(buf[..])[got..]
    {
      for i := 0 to got
        invariant forall k :: 0 <= k < BITS ==> buf[k] == if k < i then bytes[pos + k] else old(buf[k])
      {
        buf[i] := bytes[pos + i];
      }
    }

    /** The tables spell the dictionary: each entry is its prefix with one more byte.
        Entry 256 made after a clear is junk that no code refers to. */
    ghost predicate Tables()
      reads this`dict, tabPrefix, tabSuffix
    {
      && Shape() && 256 <= |dict| <= TABSIZE
      && (forall i: nat :: i < 256 ==> dict[i] == [i as byte] && tabSuffix[i] == i)
      && (forall i: nat :: 256 <= i < |dict| && !(p.block && i == CLEAR) ==>
            && Known(p, dict, tabPrefix[i]) && tabPrefix[i] < i
            && dict[i] == dict[tabPrefix[i]] + [tabSuffix[i]])
    }

    /** Push the string of a code, last byte first; fin is its first byte. */
    method Unwind(code: nat, stack: Str) returns (stack': Str, fin: byte)
      requires Tables() && Known(p, dict, code)
      ensures Popped(stack') == dict[code] + Popped(stack)
      ensures dict[code] != [] && fin == dict[code][0]
    {
      var c: int := code;
      stack' := stack;
      while c >= 256
        invariant Known(p, dict, c)
        invariant dict[code] + Popped(stack) == dict[c] + Popped(stack')
        invariant dict[c] != [] ==> dict[code] != [] && dict[code][0] == dict[c][0]
        decreases c
      {
        PoppedPush(stack', tabSuffix[c]);
        stack', c := stack' + [tabSuffix[c]], tabPrefix[c];
      }
      fin := tabSuffix[c];
      PoppedPush(stack', fin);
      stack' := stack' + [fin];
    }

    /** Write the stack in forward order. */
    method PutStack(stack: Str)
      modifies this`out
      ensures out == old(out) + Popped(stack)
    {
      var k := |stack|;
      assert stack[..k] == stack;
      while k > 0
        invariant 0 <= k <= |stack|
        invariant old(out) + Popped(stack) == out + Popped(stack[..k])
      {
        PoppedPush(stack[..k - 1], stack[k - 1]);
        assert stack[..k] == stack[..k - 1] + [stack[k - 1]];
        k, out := k - 1, out + [stack[k - 1]];
      }
    }

    /** The last code stands for the last string, unless the table was just cleared. */
    ghost predicate Last(oldcode: int, finchar: byte)
      reads this`dict, this`prev
    {
      && prev != [] && finchar == prev[0]
      && ((p.block && |dict| == 256) || (Known(p, dict, oldcode) && dict[oldcode] == prev))
    }

    /** Expand one code: write its string and enter the new string in the tables. */
    method Turn(code: nat, oldcode: int, finchar: byte) returns (fin: byte)
      requires Reader() && Tables() && Last(oldcode, finchar)
      requires Expandable(p, freeEnt, code) && (p.block && code == CLEAR ==> |dict| == 256)
      modifies this`out, this`freeEnt, this`dict, this`prev, tabPrefix, tabSuffix
      ensures Reader() && Tables() && Last(code, fin)
      ensures var d := old(View());
              var s := if code < |d.dict| then d.dict[code] else d.prev + [d.prev[0]];
              s != [] && View() == d.(dict := Extend(p, d.dict, d.prev, s[0]), prev := s, out := d.out + s)
    {
      hide LzwBits.Pow2, Params.MaxCode, Params.Max;
      var stack := [];
      ghost var s;
      if code >= freeEnt {
        stack, fin := Unwind(oldcode, [finchar]);
        s := prev + [finchar];
        assert Popped([finchar]) == [finchar];
      } else {
        stack, fin := Unwind(code, []);
        s := dict[code];
      }
      PutStack(stack);
      assert out == old(out) + s;
      Enter(oldcode, fin, s);
    }

    /** The dictionary grows by the string before and the first byte of this one, if it has room. */
    method Enter(oldcode: int, fin: byte, ghost s: Str)
      requires Reader() && Tables() && prev != [] && s != [] && s[0] == fin
      requires (p.block && |dict| == 256) || (Known(p, dict, oldcode) && dict[oldcode] == prev)
      modifies this`freeEnt, this`dict, this`prev, tabPrefix, tabSuffix
      ensures Reader() && Tables()
      ensures View() == old(View()).(dict := Extend(p, old(dict), old(prev), fin), prev := s)
    {
      hide LzwBits.Pow2, Params.MaxCode;
      MaxBounds(p);
      var code := freeEnt;
      if code < p.Max() {
        tabPrefix[code] := oldcode;
        tabSuffix[code] := fin;
        freeEnt := code + 1;
        dict := dict + [prev + [fin]];
      }
      prev := s;
    }

    /** Start with the single bytes in the tables. */
    method InitTables()
      requires Shape()
      modifies this`freeEnt, this`dict, tabPrefix, tabSuffix
      ensures dict == InitDict(p) && freeEnt == |dict| && Tables()
    {
      for code := 256 downto 0
        invariant forall i :: code <= i <= 255 ==> tabSuffix[i] == i
      {
        tabPrefix[code] := 0;
        tabSuffix[code] := code;
      }
      freeEnt := if p.block then FIRST else 256;
      dict := InitDict(p);
    }

    /** On CLEAR only the single bytes stay. */
    method ClearTables(ghost oldcode: int, ghost finchar: byte)
      requires Reader() && Tables() && p.block && Last(oldcode, finchar)
      modifies this`clearFlg, this`freeEnt, this`dict, tabPrefix
      ensures Reader() && Tables() && Last(oldcode, finchar)
      ensures View() == old(View()).(clear := true, dict := Singles(256))
    {
      for code := 256 downto 0 {
        tabPrefix[code] := 0;
      }
      clearFlg, freeEnt, dict := true, FIRST - 1, Singles(256);
    }

    ghost predicate Running(oldcode: int, finchar: byte)
      reads this, buf, tabPrefix, tabSuffix
    {
      Reader() && Tables() && Last(oldcode, finchar) && DictOk(p, dict)
    }

    lemma DictIsOk()
      requires Reader() && Tables()
      ensures DictOk(p, dict)
    {
      forall i: nat | i < |dict| && !(p.block && i == CLEAR) ensures dict[i] != [] {
        if i >= 256 { assert dict[i] == dict[tabPrefix[i]] + [tabSuffix[i]]; }
      }
    }

    method Start()
      requires Shape()
      modifies this, tabPrefix, tabSuffix
      ensures Reader() && Tables() && View() == Dec0(p, buf[..])
    {
      MaxBounds(p);
      pos, n, offset, size, nBits, maxcode, clearFlg, out, prev := 0, 0, 0, 0, INIT_BITS, 511, false, [], [];
      InitTables();
    }

    /** decompress computes Decode, whatever its buffers hold at the start. */
    method Decompress() returns (r: Outcome)
      requires Shape()
      modifies this, buf, tabPrefix, tabSuffix
      ensures r == Decode(p, bytes, old(buf[..]))
    {
      hide Tables, LzwSpec.GetCode, Left, Params.Max, Params.MaxCode, DecodeFrom, DictOk;
      Start();
      var oldcode := GetCode();
      if oldcode == -1 { return Plain([]); }
      if oldcode >= 256 { return Corrupt; }
      var finchar: byte := oldcode;
      FirstCode(oldcode, finchar);
      r := DecodeLoop(oldcode, finchar);
    }

    method FirstCode(oldcode: int, finchar: byte)
      requires Reader() && Tables() && out == [] && 0 <= oldcode == finchar < 256
      modifies this`out, this`prev
      ensures Running(oldcode, finchar)
      ensures View() == old(View()).(prev := [finchar], out := [finchar])
    {
      out := out + [finchar];
      prev := [finchar];
      DictIsOk();
    }

    /** The code of the next string, or -1. */
    method ReadCode(ghost oldcode: int, ghost finchar: byte) returns (code: int)
      requires Running(oldcode, finchar)
      modifies this`pos, this`offset, this`size, this`nBits, this`maxcode, this`clearFlg, this`n,
               this`freeEnt, this`dict, buf, tabPrefix
      ensures LzwSpec.ReadCode(p, bytes, old(View())).Eof? ==> code == -1
      ensures LzwSpec.ReadCode(p, bytes, old(View())).Got? ==>
                Running(oldcode, finchar) && code >= 0 && LzwSpec.ReadCode(p, bytes, old(View())) == Got(code, View())
    {
      hide Tables, LzwSpec.GetCode, Params.MaxCode, Params.Max, Left, Last;
      code := GetCode();
      if code == CLEAR && p.block {
        ClearTables(oldcode, finchar);
        code := GetCode();
      }
    }

    method DecodeLoop(first: int, firstChar: byte) returns (r: Outcome)
      requires Running(first, firstChar)
      modifies this, buf, tabPrefix, tabSuffix
      ensures r == DecodeFrom(p, bytes, old(View()))
    {
      hide Tables, LzwSpec.ReadCode, Params.MaxCode, Params.Max, Extend;
      var oldcode, finchar := first, firstChar;
      while true
        invariant Running(oldcode, finchar)
        invariant DecodeFrom(p, bytes, old(View())) == DecodeFrom(p, bytes, View())
        decreases Left(bytes, View())
      {
        var code := ReadCode(oldcode, finchar);
        if code == -1 { return Plain(out); }
        if !Expandable(p, freeEnt, code) { return Corrupt; }
        finchar := Turn(code, oldcode, finchar);
        DictIsOk();
        oldcode := code;
      }
    }
  }
}
