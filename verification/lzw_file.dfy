/** Whole files: header and codes, compressed and restored. */
module LzwFile {
  import opened LzwBits
  import opened LzwSpec
  import LzwCompress
  import LzwDecompress

  datatype FileResult = NotCompressed | TooManyBits | Decoded(o: Outcome)

  /** The header check of uncompress.  A width limit below 9, which compress never writes,
      counts as corrupt data. */
  method Uncompress(file: seq<byte>) returns (r: FileResult)
    ensures r == NotCompressed <==> !([0x1f, 0x9d] <= file)
    ensures r == TooManyBits <==> [0x1f, 0x9d] <= file && (|file| == 2 || file[2] % 32 > BITS)
    ensures forall p: Params, text, items ::
              p.Ok() && |file| >= 3 && file[..3] == Header(p) && IsCompressed(p, text, items, file[3..])
              ==> r == Decoded(Plain(text))
  {
    hide IsCompressed, Decode, Header;
    forall q: Params | q.Ok() && |file| >= 3 && file[..3] == Header(q)
      ensures [0x1f, 0x9d] <= file && q == Params(file[2] % 32, file[2] >= 0x80)
    {
      HeaderOf(q, file);
    }
    if |file| < 2 || file[0] != 0x1f || file[1] != 0x9d { return NotCompressed; }
    if |file| == 2 { return TooManyBits; }
    var maxbits := file[2] % 32;
    if maxbits > BITS { return TooManyBits; }
    var p := Params(maxbits, file[2] >= 0x80);
    if maxbits < INIT_BITS { return Decoded(Corrupt); }
    var d := new LzwDecompress.Decompressor(p, file[3..]);
    ghost var junk := d.buf[..];
    var o := d.Decompress();
    r := Decoded(o);
    forall q: Params, text, items |
      q.Ok() && file[..3] == Header(q) && IsCompressed(q, text, items, file[3..])
      ensures o == Plain(text)
    {
      RoundTrip(p, text, items, file[3..], junk);
    }
  }

  lemma HeaderOf(p: Params, file: seq<byte>)
    requires p.Ok() && |file| >= 3 && file[..3] == Header(p)
    ensures [0x1f, 0x9d] <= file && p == Params(file[2] % 32, file[2] >= 0x80)
  {
    assert file[..3][0] == file[0] && file[..3][1] == file[1];
    assert file[..3][2] == file[2];
  }

  /** uncompress undoes compress, for every text, width limit and mode. */
  method CompressAndRestore(p: Params, text: Str) returns (r: FileResult)
    requires p.Ok()
    ensures r == Decoded(Plain(text))
  {
    var c := new LzwCompress.Compressor(p);
    ghost var items;
    var file;
    file, items := c.Compress(text);
    r := Uncompress(file);
  }
}
