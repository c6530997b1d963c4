/**
 A file on which decomp16 loses step: compress with a limit of 9 bits, on a run of zeros that
 fills the dictionary.
 */
module D16Nine {
  import opened LzwBits
  import opened LzwSpec
  import opened D16Meaning
  import opened D16Stage
  import opened D16Top
  import opened D16Step
  import opened D16Main
  import LzwPack

  const NINE := Params(9, true)

  function Zeros(n: nat): Str { seq(n, _ => 0) }

  /** The items of a run of zeros: each code stands for one zero more than the one before, and the
      last entry is used over again. */
  function ZeroItem(t: nat): Item {
    if t == 0 then Code(0, Zeros(1)) else if t < 256 then Code(256 + t, Zeros(t + 1)) else Code(511, Zeros(256))
  }

  function ZeroItems(n: nat): seq<Item> { seq(n, t requires 0 <= t => ZeroItem(t)) }

  function ZeroDict(t: nat): seq<Str> {
    InitDict(NINE) + if t == 0 then [] else seq(t - 1, k requires 0 <= k => Zeros(k + 2))
  }

  /** The state after t items, until the dictionary is full. */
  function ZeroSt(t: nat): St
    requires t <= 258
  {
    if t < 256 then St(ZeroDict(t), Zeros(t), 9, 9 * (t / 8), 9 * (t % 8))
    else St(ZeroDict(256), Zeros(256), 10, 288, 10 * (t - 256))
  }

  lemma DictGrows(t: nat)
    requires 1 <= t
    ensures ZeroDict(t + 1) == ZeroDict(t) + [Zeros(t) + [0]] && |ZeroDict(t)| == 256 + t
  {
    assert Zeros(t + 1) == Zeros(t) + [0];
  }

  lemma DictAt(t: nat, k: nat)
    requires 1 <= k < t
    ensures 256 + k < |ZeroDict(t)| && ZeroDict(t)[256 + k] == Zeros(k + 1)
  {
  }

  lemma NineParams()
    ensures NINE.Ok() && NINE.Max() == 512 && NINE.MaxCode(9) == 511 && NINE.MaxCode(10) == 1023
  {
    assert Pow2(9) == 512 && Pow2(10) == 1024;
  }

  lemma ZeroStep(t: nat)
    requires t < 258
    ensures ValidItem(NINE, ZeroSt(t), ZeroItem(t)) && Step(NINE, ZeroSt(t), ZeroItem(t)) == ZeroSt(t + 1)
  {
    if t == 0 { FirstZero(); } else if t < 255 { NextZero(t); } else if t == 255 { LastEntry(); } else { MoreZeros(t); }
  }

  lemma FirstZero()
    ensures ValidItem(NINE, ZeroSt(0), ZeroItem(0)) && Step(NINE, ZeroSt(0), ZeroItem(0)) == ZeroSt(1)
  {
    hide Params.Max, Params.MaxCode, ZeroDict;
    NineParams();
    DictStart();
    assert ZeroSt(0) == St(InitDict(NINE), [], 9, 0, 0) && ZeroSt(1) == St(InitDict(NINE), Zeros(1), 9, 0, 9);
  }

  /** The dictionary grows by one string. */
  lemma ZeroEntry(t: nat)
    requires 1 <= t < 256
    ensures DictAfter(NINE, ZeroSt(t), ZeroItem(t)) == ZeroDict(t + 1)
    ensures ValidItem(NINE, ZeroSt(t), ZeroItem(t))
  {
    hide Params.Max, Params.MaxCode, ZeroDict;
    NineParams();
    DictGrows(t);
    DictGrows(t + 1);
    DictAt(t + 1, t);
  }

  lemma NextZero(t: nat)
    requires 1 <= t < 255
    ensures ValidItem(NINE, ZeroSt(t), ZeroItem(t)) && Step(NINE, ZeroSt(t), ZeroItem(t)) == ZeroSt(t + 1)
  {
    hide Params.Max, Params.MaxCode, ZeroDict, DictAfter, ValidItem;
    NineParams();
    ZeroEntry(t);
    DictGrows(t + 1);
    Eighths(t);
  }

  lemma Eighths(t: nat)
    ensures if t % 8 == 7 then (t + 1) / 8 == t / 8 + 1 && (t + 1) % 8 == 0
            else (t + 1) / 8 == t / 8 && (t + 1) % 8 == t % 8 + 1
  {
  }

  lemma LastEntry()
    ensures ValidItem(NINE, ZeroSt(255), ZeroItem(255)) && Step(NINE, ZeroSt(255), ZeroItem(255)) == ZeroSt(256)
  {
    hide Params.Max, Params.MaxCode, ZeroDict, DictAfter, ValidItem;
    NineParams();
    ZeroEntry(255);
    DictGrows(256);
  }

  lemma MoreZeros(t: nat)
    requires 256 <= t < 258
    ensures ValidItem(NINE, ZeroSt(t), ZeroItem(t)) && Step(NINE, ZeroSt(t), ZeroItem(t)) == ZeroSt(t + 1)
  {
    hide Params.Max, Params.MaxCode, ZeroDict;
    NineParams();
    DictGrows(256);
    DictAt(256, 255);
  }

  lemma DictStart()
    ensures ZeroDict(0) == ZeroDict(1) == InitDict(NINE)
  {
  }

  lemma {:induction false} ZeroAfter(n: nat, t: nat)
    requires t <= n <= 258
    ensures After(NINE, ZeroItems(n)[..t]) == ZeroSt(t)
  {
    hide ZeroSt, Step, ZeroItem;
    if t == 0 {
      assert ZeroSt(0) == Init(NINE) by { StartSt(); }
    } else {
      ZeroAfter(n, t - 1);
      ZeroStep(t - 1);
      AfterSnoc(NINE, ZeroItems(n), t - 1);
    }
  }

  lemma StartSt()
    ensures ZeroSt(0) == Init(NINE)
  {
  }

  lemma ZeroValid(n: nat)
    requires n <= 258
    ensures Valid(NINE, ZeroItems(n))
  {
    hide After, ValidItem, ZeroItem;
    forall i: nat | i < n ensures ValidItem(NINE, After(NINE, ZeroItems(n)[..i]), ZeroItems(n)[i]) {
      ZeroAfter(n, i);
      ZeroStep(i);
    }
  }

  // ---- what the first pass finds ----

  lemma {:induction false} OnesBit(k: nat, j: nat)
    ensures Bit(Pow2(k) - 1, j) == (j < k)
  {
    if k == 0 {
      BitZero(j);
    } else {
      assert (Pow2(k) - 1) / 2 == Pow2(k - 1) - 1;
      if j > 0 { OnesBit(k - 1, j - 1); }
    }
  }

  lemma OnesField(bytes: seq<byte>, at: nat, j: nat)
    requires at + 10 <= 8 * |bytes| && Field(bytes, at, 10) == 511 && j < 10
    ensures BlockBit(bytes, at + j) == (j < 9)
  {
    hide LzwBits.Field, Bit, BlockBit;
    assert Pow2(9) == 512;
    FieldBit(bytes, at, 10, j);
    OnesBit(9, j);
  }

  /** Two 10-bit codes 511 side by side, read as 9-bit codes. */
  lemma ReadShort(bytes: seq<byte>, at: nat)
    requires at + 20 <= 8 * |bytes| && Field(bytes, at, 10) == 511 && Field(bytes, at + 10, 10) == 511
    ensures Field(bytes, at, 9) == 511 && Field(bytes, at + 9, 9) == 510
  {
    hide LzwBits.Field, Bit, BlockBit;
    assert Pow2(9) == 512;
    forall j: nat | j < 9
      ensures Bit(Field(bytes, at, 9), j) == Bit(511, j) && Bit(Field(bytes, at + 9, 9), j) == Bit(510, j)
    {
      FieldBit(bytes, at, 9, j);
      FieldBit(bytes, at + 9, 9, j);
      OnesBit(9, j);
      FiveTen(j);
      OnesField(bytes, at, j);
      OnesField(bytes, at, 9);
      if j > 0 { OnesField(bytes, at + 10, j - 1); }
    }
    SameBits(Field(bytes, at, 9), 511, 9);
    SameBits(Field(bytes, at + 9, 9), 510, 9);
  }

  lemma FiveTen(j: nat)
    requires j < 9
    ensures Bit(510, j) == (j > 0)
  {
    assert Pow2(8) == 256;
    if j > 0 { OnesBit(8, j - 1); }
  }

  /** It is in step for 256 codes, and then stands where the next one begins, with 9 bits. */
  lemma InStepSoFar()
    ensures forall u: nat :: u < 256 ==> InStep(NINE, ZeroItems(258), u)
    ensures Stand(NINE, ZeroItems(258), 256) == Seek(9, 0, 2304)
  {
    hide InStep, After, Valid, LooksAt, ZeroItem, ZeroDict;
    var items := ZeroItems(258);
    NineParams();
    ZeroValid(258);
    assert ReadableTo(NINE, items, 255) by {
      forall t: nat | t <= 255 ensures |After(NINE, items[..t]).dict| < 512 { ShortDict(t); }
    }
    InStepIff(NINE, items, 255);
    AtPlace();
    assert CodeOf(items[255]) == 511 by { LastItems(); }
  }

  lemma ShortDict(t: nat)
    requires t <= 255
    ensures |After(NINE, ZeroItems(258)[..t]).dict| < 512
  {
    hide After, ZeroItem;
    ZeroAfter(258, t);
  }

  lemma LastItems()
    ensures forall t: nat :: 255 <= t < 258 ==> ZeroItems(258)[t] == Code(511, Zeros(256))
  {
  }

  lemma AtPlace()
    requires NINE.Ok() && Valid(NINE, ZeroItems(258)) && ReadableTo(NINE, ZeroItems(258), 255)
    ensures LooksAt(NINE, ZeroItems(258), 255) == Seek(9, 7, 2295)
  {
    hide After, Valid, LooksAt, ZeroItem, ZeroDict, ReadableTo;
    Follows(NINE, ZeroItems(258), 255);
    ZeroAfter(258, 255);
  }

  lemma ZeroBytes(bytes: seq<byte>)
    requires Packed(NINE, ZeroItems(258), bytes)
    ensures |bytes| == 291 && Field(bytes, 2304, 10) == 511 && Field(bytes, 2314, 10) == 511
  {
    hide After, ZeroItem, LzwBits.Field, ZeroDict;
    var items := ZeroItems(258);
    LastItems();
    NineParams();
    ZeroAfter(258, 256);
    ZeroAfter(258, 257);
    ZeroAfter(258, 258);
    assert items[..258] == items;
    assert CodeAt(bytes, After(NINE, items[..256]), CodeOf(items[256]));
    assert CodeAt(bytes, After(NINE, items[..257]), CodeOf(items[257]));
    CodeRead(bytes, ZeroSt(256), 511);
    CodeRead(bytes, ZeroSt(257), 511);
  }

  /** It takes 256 codes as written, one more by chance, and then 510 for 511. */
  lemma ZeroCodes(bytes: seq<byte>)
    requires Packed(NINE, ZeroItems(258), bytes)
    ensures FirstCodes(NINE, bytes) == CodeSyms(ZeroItems(258))[..256] + [Sym(511, false), Sym(510, false)]
  {
    hide Packed, InStep, Means, Take, LzwBits.Field, Stand, EndOf, FirstCodes;
    var items := ZeroItems(258);
    NineParams();
    ZeroValid(258);
    InStepSoFar();
    ZeroBytes(bytes);
    ReadShort(bytes, 2304);
    TakesCodes(NINE, items, bytes, 256);
    TwoMore(bytes, Means(NINE, NINE.Max(), CodeSyms(items)[..256]));
  }

  lemma TwoMore(bytes: seq<byte>, d: Dst)
    requires |bytes| == 291 && Field(bytes, 2304, 9) == 511 && Field(bytes, 2313, 9) == 510
    ensures Codes(NINE, bytes, Seek(9, 0, 2304), d) == [Sym(511, false), Sym(510, false)]
  {
    hide Take, LzwBits.Field, EndOf;
    var d1 := Take(NINE, NINE.Max(), d, Sym(511, false));
    var d2 := Take(NINE, NINE.Max(), d1, Sym(510, false));
    assert Codes(NINE, bytes, Seek(9, 2, 2322), d2) == [];
    assert Codes(NINE, bytes, Seek(9, 1, 2313), d1) == [Sym(510, false)];
  }

  // ---- what it makes of them ----

  /** The dictionary when it is full. */
  lemma FullDict(d: Dst)
    requires Agrees(NINE, ZeroSt(256), d)
    ensures |d.known| == 512 && d.known[511] == Zeros(256) && d.known[510] == Zeros(255)
  {
    hide ZeroDict;
    DictGrows(256);
    DictAt(256, 255);
    DictAt(256, 254);
  }

  lemma LastTakes(d: Dst)
    requires |d.known| == 512 && d.known[511] == Zeros(256) && d.known[510] == Zeros(255)
    ensures var d1 := Take(NINE, 512, d, Sym(511, false));
            && SymOk(NINE, 512, d, Sym(511, false)) && SymOk(NINE, 512, d1, Sym(510, false))
            && Take(NINE, 512, d1, Sym(510, false)).out == d.out + Zeros(256) + Zeros(255)
  {
  }

  ghost function ZeroText(): Str { Text(ZeroItems(258)) }

  lemma TextParts()
    ensures ZeroText() == Text(ZeroItems(258)[..256]) + Zeros(256) + Zeros(256)
  {
    hide ZeroItem;
    var items := ZeroItems(258);
    LastItems();
    assert items[..258] == items && items[..258][..257] == items[..257] && items[..257][..256] == items[..256];
  }

  /** decomp16 reads this file to the end and leaves out a byte of the text. */
  lemma NineBitsLose(file: seq<byte>)
    requires Produced(NINE, ZeroText(), ZeroItems(258), file)
    ensures HeaderOk(file) && AllMean(file) && Unpacked(file) != ZeroText()
  {
    hide Packed, Valid, Good, Means, Take, SymOk, FirstCodes, Agrees, ZeroSt, ZeroText, Text;
    var items, bytes := ZeroItems(258), file[3..];
    NineParams();
    HeaderRead(NINE, ZeroText(), items, file);
    ZeroCodes(bytes);
    var syms := CodeSyms(items)[..256];
    SymsUpTo(items, 256);
    ValidUpTo(NINE, items, 256);
    CodesMean(NINE, items[..256]);
    ZeroAfter(258, 256);
    var d := Means(NINE, 512, syms);
    FullDict(d);
    LastTakes(d);
    GoodSnoc(NINE, 512, syms, Sym(511, false));
    MeansSnoc(NINE, 512, syms, Sym(511, false));
    GoodSnoc(NINE, 512, syms + [Sym(511, false)], Sym(510, false));
    MeansSnoc(NINE, 512, syms + [Sym(511, false)], Sym(510, false));
    assert FirstCodes(NINE, bytes) == syms + [Sym(511, false)] + [Sym(510, false)];
    TextParts();
    assert |Unpacked(file)| < |ZeroText()|;
  }

  /** There is such a file. */
  lemma NineBitsFile()
    ensures var file := Header(NINE) + LzwPack.Bytes(NINE, ZeroItems(258));
            Produced(NINE, ZeroText(), ZeroItems(258), file) && HeaderOk(file) && AllMean(file)
                && Unpacked(file) != ZeroText()
  {
    hide Packed, Valid, LzwPack.Bytes, AllMean, Unpacked, ZeroItem;
    var bytes := LzwPack.Bytes(NINE, ZeroItems(258));
    var file := Header(NINE) + bytes;
    NineParams();
    ZeroValid(258);
    LzwPack.CanPack(NINE, ZeroItems(258));
    assert file[..3] == Header(NINE) && file[3..] == bytes;
    NineBitsLose(file);
  }
}
