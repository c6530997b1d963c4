/**
 decomp16 pass by pass: each reads what the one before wrote, and the last writes the text.
 */
module D16Main {
  import opened LzwBits
  import opened LzwSpec
  import opened D16Meaning
  import opened D16Stage
  import opened D16Pipe
  import opened D16Bits
  import opened D16Top
  import opened D16Step
  import LzwCompress
  import LzwFile

  /** The third byte of a compressed file. */
  function StyleOf(p: Params): nat { p.maxbits + if p.block then 0x80 else 0 }

  /** The compression style, or nothing for a style that cannot be decompressed. */
  function ParamsOf(style: nat): (r: (bool, Params))
    ensures r.0 ==> r.1.Ok()
  {
    var p := Params(style % 32, (style / 128) % 2 == 1);
    (9 <= p.maxbits <= 16, p)
  }

  lemma StyleRead(p: Params)
    requires p.Ok()
    ensures ParamsOf(StyleOf(p)) == (true, p) && StyleOf(p) <= 256
  {
  }

  /** The words from pass k + 1 to pass k: the style, indices that pass k knows and that mean
      text, and end marks. */
  ghost predicate Carries(p: Params, k: nat, text: Str, words: seq<nat>, syms: seq<Sym>, marks: nat) {
    && marks >= 1 && words == Framed(Stream(p, syms, marks)) && Whole(Stream(p, syms, marks)) && |words| % BUFSZ_2 == 0
    && Good(p, Cap(p, k), syms) && Means(p, Cap(p, k), syms).out == text
    && forall t: nat :: t < |syms| ==> syms[t].index < Base(k)
  }

  ghost function Stream(p: Params, syms: seq<Sym>, marks: nat): seq<Sym> {
    [Sym(StyleOf(p), false)] + syms + EndMarks(marks)
  }

  /** Write the style, the indices of a pass and the end. */
  method WritePipe(p: Params, syms: seq<Sym>) returns (words: seq<nat>, ghost marks: nat)
    ensures marks >= 1 && words == Framed(Stream(p, syms, marks))
    ensures Whole(Stream(p, syms, marks)) && |words| % BUFSZ_2 == 0
  {
    hide PipeWriter.Valid, Framed, Whole;
    var writer := new PipeWriter();
    writer.Put(StyleOf(p), false);
    for i := 0 to |syms|
      invariant writer.Valid() && writer.Sent() == [Sym(StyleOf(p), false)] + syms[..i]
      invariant fresh(writer) && fresh(writer.opbuf)
    {
      assert syms[..i + 1] == syms[..i] + [syms[i]];
      writer.Put(syms[i].index, syms[i].first);
    }
    assert syms[..|syms|] == syms;
    marks := writer.Die();
    words := writer.written;
  }

  /** Read the style and the indices up to the first end mark. */
  method ReadPipe(words: seq<nat>, ghost ss: seq<Sym>, ghost k: nat) returns (style: nat, input: seq<Sym>)
    requires words == Framed(ss) && Whole(ss) && |words| % BUFSZ_2 == 0 && 1 <= k < |ss| && ss[k].index == EOF_INDEX
    requires forall t: nat :: 1 <= t < k ==> ss[t].index != EOF_INDEX
    ensures style == ss[0].index && input == ss[1..k + 1]
  {
    hide PipeReader.Valid, Framed, Whole;
    var reader := new PipeReader(words, ss);
    var ok, s := reader.Get();
    style, input := s.index, [];
    assert ss[1..] == reader.Rest() && ss[1..1] == [];
    ghost var t := 1;
    while true
      invariant reader.Valid() && 1 <= t <= k && reader.Rest() == ss[t..]
      invariant input == ss[1..t] && fresh(reader) && fresh(reader.ipbuf)
      decreases k - t
    {
      ok, s := reader.Get();
      assert ss[t..] == [ss[t]] + ss[t + 1..];
      assert s == ss[t] && reader.Rest() == ss[t + 1..];
      assert ss[1..t + 1] == ss[1..t] + [ss[t]];
      input := input + [s];
      t := t + 1;
      if s.index == EOF_INDEX { return; }
    }
  }

  predicate HeaderOk(file: seq<byte>) {
    |file| >= 3 && file[0] == 0x1F && file[1] == 0x9D && ParamsOf(file[2]).0
  }

  /** The codes that the first pass finds in a compressed file. */
  ghost function FileCodes(file: seq<byte>): seq<Sym>
    requires HeaderOk(file)
  {
    FirstCodes(ParamsOf(file[2]).1, file[3..])
  }

  /** All of them stand for something. */
  ghost predicate AllMean(file: seq<byte>)
    requires HeaderOk(file)
  {
    var p := ParamsOf(file[2]).1;
    Good(p, p.Max(), FileCodes(file))
  }

  /** The bytes they stand for. */
  ghost function Unpacked(file: seq<byte>): Str
    requires HeaderOk(file)
  {
    var p := ParamsOf(file[2]).1;
    Means(p, p.Max(), FileCodes(file)).out
  }

  /** file is what compress makes of text. */
  ghost predicate Produced(p: Params, text: Str, items: seq<Item>, file: seq<byte>) {
    p.Ok() && |file| >= 3 && file[..3] == Header(p) && IsCompressed(p, text, items, file[3..])
  }

  lemma HeaderRead(p: Params, text: Str, items: seq<Item>, file: seq<byte>)
    requires Produced(p, text, items, file)
    ensures HeaderOk(file) && ParamsOf(file[2]).1 == p
  {
    hide IsCompressed;
    StyleRead(p);
    assert file[..3][0] == file[0] && file[..3][1] == file[1] && file[..3][2] == file[2];
  }

  /** What compress makes of a text unpacks to the text, up to the point where a 9-bit dictionary
      is full. */
  lemma Unpacks(p: Params, text: Str, items: seq<Item>, file: seq<byte>)
    requires Produced(p, text, items, file) && ReadableTo(p, items, |items|)
    ensures HeaderOk(file) && ParamsOf(file[2]).1 == p && AllMean(file) && Unpacked(file) == text
  {
    hide Good, Means, FirstCodes, ReadableTo, LzwSpec.Valid, Packed;
    HeaderRead(p, text, items, file);
    TakesAll(p, items, file[3..]);
    CodesMean(p, items);
  }

  /** What a pass has passed on means what it has read. */
  lemma PassedOn(stage: Stage)
    requires stage.Valid()
    ensures Good(stage.p, Cap(stage.p, stage.pnum), stage.out)
    ensures Means(stage.p, Cap(stage.p, stage.pnum), stage.out).out == stage.d.out
    ensures forall t: nat :: t < |stage.out| ==> stage.out[t].index < Base(stage.pnum)
  {
    hide Good, Means;
  }

  /** Pass 4, which reads the compressed file. It gives up on a wrong header. */
  method FirstPass(file: seq<byte>) returns (died: bool, words: seq<nat>, ghost syms: seq<Sym>, ghost marks: nat)
    requires HeaderOk(file) ==> AllMean(file)
    ensures died <==> !HeaderOk(file)
    ensures !died ==> Carries(ParamsOf(file[2]).1, 4, Unpacked(file), words, syms, marks)
  {
    hide Good, Means, Framed, Whole, Stage.Valid, Stream, Cap, FirstCodes;
    words, syms, marks := [], [], 0;
    if |file| < 3 || file[0] != 0x1F || file[1] != 0x9D { return true, words, syms, marks; }
    var style := ParamsOf(file[2]);
    if !style.0 { return true, words, syms, marks; }
    var stage := new Stage(style.1, 4);
    var bits := new BitReader(file[3..]);
    RunTop(stage, bits);
    PassedOn(stage);
    words, marks := WritePipe(style.1, stage.out);
    syms, died := stage.out, false;
  }

  lemma {:induction false} KnownBound(p: Params, cap: nat, syms: seq<Sym>)
    requires |InitDict(p)| <= cap
    ensures |Means(p, cap, syms).known| <= cap
  {
    if syms != [] { KnownBound(p, cap, syms[..|syms| - 1]); }
  }

  lemma EndMarkPast(p: Params, k: nat, syms: seq<Sym>)
    requires p.Ok() && k <= 3
    ensures EOF_INDEX > EndOf(Cap(p, k + 1), Means(p, Cap(p, k + 1), syms))
  {
    CapsOk(p, k);
    KnownBound(p, Cap(p, k + 1), syms);
  }

  lemma StreamParts(p: Params, syms: seq<Sym>, marks: nat)
    requires marks >= 1
    ensures var ss, k := Stream(p, syms, marks), |syms| + 1;
            && k < |ss| && ss[0] == Sym(StyleOf(p), false) && ss[k] == Sym(EOF_INDEX, false)
            && ss[1..k + 1] == syms + [Sym(EOF_INDEX, false)] && forall t: nat :: 1 <= t < k ==> ss[t] == syms[t - 1]
  {
  }

  /** Pass k, which reads from a pipe: what it passes on means the same. */
  method PipePass(k: nat, words: seq<nat>, ghost p: Params, ghost text: Str, ghost syms: seq<Sym>, ghost marks: nat)
    returns (q: Params, out: seq<Sym>)
    requires p.Ok() && k <= 3 && Carries(p, k + 1, text, words, syms, marks)
    ensures q == p && Good(p, Cap(p, k), out) && Means(p, Cap(p, k), out).out == text
    ensures forall t: nat :: t < |out| ==> out[t].index < Base(k)
  {
    hide Good, Means, Framed, Whole, Stage.Valid, Cap, Stream, EndOf;
    StreamParts(p, syms, marks);
    var style, input := ReadPipe(words, Stream(p, syms, marks), |syms| + 1);
    StyleRead(p);
    q := ParamsOf(style).1;
    var stage := new Stage(q, k);
    EndMarkPast(p, k, syms);
    assert input[..|syms|] == syms;
    var ok := stage.RunPipe(input, |syms|);
    PassedOn(stage);
    out := stage.out;
  }

  /** decomp16 with passes 4 to 0 one after the other writes what the codes of the file stand for. */
  method Decomp16(file: seq<byte>) returns (died: bool, out: Str)
    requires HeaderOk(file) ==> AllMean(file)
    ensures died <==> !HeaderOk(file)
    ensures !died ==> out == Unpacked(file)
  {
    hide Good, Means, Framed, Whole, Cap, Stream, FirstCodes;
    ghost var syms, marks;
    var words;
    out := [];
    died, words, syms, marks := FirstPass(file);
    if died { return; }
    ghost var p, text := ParamsOf(file[2]).1, Unpacked(file);
    var k := 4;
    while k > 1
      invariant 1 <= k <= 4 && Carries(p, k, text, words, syms, marks)
    {
      var q, passed := PipePass(k - 1, words, p, text, syms, marks);
      words, marks := WritePipe(q, passed);
      syms, k := passed, k - 1;
    }
    var q, passed := PipePass(0, words, p, text, syms, marks);
    BytesMean(p, Cap(p, 0), passed);
    out := Indices(passed);
  }

  /** Where decomp16 stays in step with compress, it and uncompress agree. */
  method BothDecompress(file: seq<byte>, ghost p: Params, ghost text: Str, ghost items: seq<Item>)
    returns (r: LzwFile.FileResult, out: Str)
    requires Produced(p, text, items, file) && ReadableTo(p, items, |items|)
    ensures out == text && r == LzwFile.Decoded(Plain(out))
  {
    hide IsCompressed, ReadableTo, AllMean, Unpacked;
    Unpacks(p, text, items, file);
    r := LzwFile.Uncompress(file);
    var died;
    died, out := Decomp16(file);
  }

  /** decomp16 undoes compress for every text and every limit from 10 to 16 bits. */
  method CompressAndDecomp16(p: Params, text: Str) returns (out: Str)
    requires p.Ok() && p.maxbits >= 10
    ensures out == text
  {
    hide IsCompressed, AllMean, Unpacked;
    var c := new LzwCompress.Compressor(p);
    ghost var items;
    var file;
    file, items := c.Compress(text);
    Unpacks(p, text, items, file);
    var died;
    died, out := Decomp16(file);
  }
}
