/**
 The reader written from the standards recovers exactly the image that was laid out.
 */
module PngRoundTrip {
  import opened Bytes
  import opened Wrappers
  import opened Crc
  import opened PngReader
  import opened PngLayout

  function ColorType(channels: nat): byte {
    if channels == 3 then 2 else 0
  }

  function Run(b: byte, n: nat): (d: seq<byte>)
    ensures |d| == n
  {
    seq(n, _ => b)
  }

  function Triangle(n: nat): nat {
    n * (n + 1) / 2
  }

  lemma TriangleNext(b: nat, n: nat)
    ensures Area(b, Triangle(n + 1)) == Area(b, Triangle(n)) + (n + 1) * b && Area(b, n + 1) == Area(b, n) + b
  {
    assert (n + 1) * (n + 2) / 2 == n * (n + 1) / 2 + (n + 1);
  }

  lemma {:induction false} SumsOfRun(b: byte, n: nat)
    ensures Sum(Run(b, n)) == Area(b, n) && WeightedSum(Run(b, n)) == Area(b, Triangle(n))
  {
    if n > 0 {
      hide Triangle, Area;
      SumsOfRun(b, n - 1);
      assert Run(b, n)[1..] == Run(b, n - 1);
      TriangleNext(b, n - 1);
    } else {
      assert Triangle(0) == 0;
    }
  }

  /** The Adler-32 checksum of a run of one octet, and of nothing. */
  lemma AdlerOfRun(b: byte, n: nat)
    ensures Adler32(Run(b, n)) == (n + Area(b, Triangle(n))) % 65521 * 65536 + (1 + Area(b, n)) % 65521
    ensures Adler32([]) == 1
  {
    hide Run, Triangle, Area;
    SumsOfRun(b, n);
  }

  lemma FromBe32Prefix(v: u32, rest: seq<byte>)
    ensures FromBe32(Be32(v) + rest) == v
  {
    Be32RoundTrip(v);
  }

  /** A chunk that was laid out is read back, and the reader stops right behind it. */
  lemma ReadMadeChunk(tag: seq<byte>, body: seq<byte>, rest: seq<byte>)
    requires |tag| == 4 && |body| < 0x8000_0000
    ensures ReadChunk(MakeChunk(tag, body) + rest) == Some((Chunk(tag, body), rest))
  {
    hide FromBe32, Be32, Crc32;
    var n := |body|;
    var check := Be32(Crc32(tag + body));
    var s := MakeChunk(tag, body) + rest;
    assert s == Be32(n) + (tag + body + check + rest);
    FromBe32Prefix(n, tag + body + check + rest);
    assert s[8 + n..] == check + rest;
    FromBe32Prefix(Crc32(tag + body), rest);
    assert s[4..8 + n] == tag + body;
    assert s[4..8] == tag;
    assert s[8..8 + n] == body;
    assert s[12 + n..] == rest;
  }

  /** One stored block, read back. */
  lemma ReadMadeBlock(final: bool, data: seq<byte>, after: seq<byte>)
    requires |data| <= STORED_BLOCK_MAX
    ensures ReadStored(BlockHeader(final, |data|) + data + after)
         == if final then Some((data, after))
            else match ReadStored(after)
              case None => None
              case Some((more, rest)) => Some((data + more, rest))
  {
    var n := |data|;
    var header := BlockHeader(final, n);
    var s := header + data + after;
    assert FromLe16(s[1..]) == n && FromLe16(s[3..]) == 0xFFFF - n;
    assert s[5..5 + n] == data;
    assert s[5 + n..] == after;
  }

  /** Stored blocks give back the octets they hold. */
  lemma {:induction false} ReadMadeBlocks(raw: seq<byte>, rest: seq<byte>)
    requires raw != []
    ensures ReadStored(Blocks(raw) + rest) == Some((raw, rest))
    decreases |raw|
  {
    hide ReadStored, BlockHeader;
    var n := BlockSize(|raw|);
    var after := Blocks(raw[n..]) + rest;
    assert Blocks(raw) + rest == BlockHeader(n == |raw|, n) + raw[..n] + after;
    ReadMadeBlock(n == |raw|, raw[..n], after);
    assert raw == raw[..n] + raw[n..];
    if n < |raw| {
      ReadMadeBlocks(raw[n..], rest);
    } else {
      assert raw[n..] == [] && raw[..n] == raw;
      assert after == [] + rest == rest;
    }
  }

  lemma ReadMadeZlib(raw: seq<byte>)
    requires raw != []
    ensures ReadZlib(Zlib(raw)) == Some(raw)
  {
    hide ReadStored, Blocks, Adler32, Be32, FromBe32;
    var check := Be32(AdlerWord(raw));
    var z := Zlib(raw);
    assert z[0] == 0x78 && z[1] == 0x01;
    assert z[2..] == Blocks(raw) + check;
    ReadMadeBlocks(raw, check);
    Be32RoundTrip(AdlerWord(raw));
  }

  /** Scanlines give back the pixels. */
  lemma {:induction false} UnfilterRaw(pixels: seq<byte>, rowBytes: nat, rows: nat)
    requires |pixels| == Area(rowBytes, rows)
    ensures Unfilter(Raw(pixels, rowBytes, rows), rowBytes, rows) == Some(pixels)
    decreases rows
  {
    if rows > 0 {
      RowsLeft(rowBytes, rows);
      UnfilterRaw(pixels[rowBytes..], rowBytes, rows - 1);
      var raw := Raw(pixels, rowBytes, rows);
      assert raw[1..1 + rowBytes] == pixels[..rowBytes];
      assert raw[1 + rowBytes..] == Raw(pixels[rowBytes..], rowBytes, rows - 1);
      assert pixels == pixels[..rowBytes] + pixels[rowBytes..];
    }
  }

  /** A width or height of zero is no valid header (RFC 2083, section 4.1.1). */
  lemma ReadMadeHeader(w: u16, h: u16, channels: nat)
    ensures ReadHeader(HeaderBody(w, h, channels))
         == if 1 <= w && 1 <= h then Some((w, h, ColorType(channels))) else None
  {
    hide FromBe32, Be32;
    var tail: seq<byte> := [8, ColorType(channels), 0, 0, 0];
    var b := HeaderBody(w, h, channels);
    assert b == Be32(w) + (Be32(h) + tail);
    FromBe32Prefix(w, Be32(h) + tail);
    assert b[4..] == Be32(h) + tail;
    FromBe32Prefix(h, tail);
    assert b[8] == 8 && b[9] == ColorType(channels) && b[10..] == [0, 0, 0];
  }

  lemma ReadMadeImage(w: u16, h: u16, channels: nat, pixels: seq<byte>)
    requires channels == 1 || channels == 3
    requires Encodable(pixels, w, h, channels)
    ensures ReadImage(HeaderBody(w, h, channels), Zlib(Raw(pixels, w * channels, h)))
         == if 1 <= w && 1 <= h then Some(Image(w, h, ColorType(channels), pixels)) else None
  {
    hide ReadHeader, ReadZlib, Unfilter, Raw, Zlib;
    ReadMadeHeader(w, h, channels);
    if 1 <= w && 1 <= h {
      var raw := Raw(pixels, w * channels, h);
      assert |raw| > 0 by {
        RowsLeft(w * channels + 1, h);
      }
      ReadMadeZlib(raw);
      UnfilterRaw(pixels, w * channels, h);
    }
  }

  /** Three chunks, read back in order. */
  lemma ReadThreeChunks(a: seq<byte>, b: seq<byte>)
    requires |a| < 0x8000_0000 && |b| < 0x8000_0000
    ensures ReadChunks(MakeChunk(IHDR, a) + MakeChunk(IDAT, b) + MakeChunk(IEND, []))
         == Some([Chunk(IHDR, a), Chunk(IDAT, b), Chunk(IEND, [])])
  {
    hide MakeChunk, ReadChunk;
    var last := MakeChunk(IEND, []);
    var middle := MakeChunk(IDAT, b) + last;
    ReadMadeChunk(IEND, [], []);
    assert last + [] == last;
    assert ReadChunks([]) == Some([]);
    assert [Chunk(IEND, [])] + [] == [Chunk(IEND, [])];
    assert ReadChunks(last) == Some([Chunk(IEND, [])]);
    ReadMadeChunk(IDAT, b, last);
    assert ReadChunks(middle) == Some([Chunk(IDAT, b)] + [Chunk(IEND, [])]);
    ReadMadeChunk(IHDR, a, middle);
    assert MakeChunk(IHDR, a) + MakeChunk(IDAT, b) + last == MakeChunk(IHDR, a) + middle;
    assert [Chunk(IHDR, a)] + ([Chunk(IDAT, b)] + [Chunk(IEND, [])])
        == [Chunk(IHDR, a), Chunk(IDAT, b), Chunk(IEND, [])];
  }

  lemma JoinOneIdat(b: seq<byte>)
    ensures JoinIdat([Chunk(IDAT, b)]) == Some(b)
  {
    assert [Chunk(IDAT, b)][1..] == [];
    assert b + [] == b;
  }

  /**
   What is laid out for an image reads back as that image, and is readable at all exactly when the image
   has rows and columns.
   */
  lemma RoundTrip(w: u16, h: u16, channels: nat, pixels: seq<byte>)
    requires channels == 1 || channels == 3
    requires Encodable(pixels, w, h, channels)
    ensures |Zlib(Raw(pixels, w * channels, h))| < 0x8000_0000
    ensures ReadPng(PngFile(w, h, channels, pixels))
         == if 1 <= w && 1 <= h then Some(Image(w, h, ColorType(channels), pixels)) else None
  {
    hide ReadChunks, MakeChunk, JoinIdat, ReadImage, Raw, Zlib, HeaderBody, EncodedLength, Area;
    FilePieces(w, h, channels, pixels);
    var a, b := HeaderBody(w, h, channels), Zlib(Raw(pixels, w * channels, h));
    var file := PngFile(w, h, channels, pixels);
    assert file[..8] == SIGNATURE;
    assert file[8..] == MakeChunk(IHDR, a) + MakeChunk(IDAT, b) + MakeChunk(IEND, []);
    ReadThreeChunks(a, b);
    var chunks := [Chunk(IHDR, a), Chunk(IDAT, b), Chunk(IEND, [])];
    assert chunks[1..2] == [Chunk(IDAT, b)];
    JoinOneIdat(b);
    ReadMadeImage(w, h, channels, pixels);
  }

  /** No two images share an encoding. */
  lemma EncodingInjective(w: u16, h: u16, channels: nat, pixels: seq<byte>,
                          w': u16, h': u16, channels': nat, pixels': seq<byte>)
    requires channels in {1, 3} && channels' in {1, 3} && 1 <= w && 1 <= h && 1 <= w' && 1 <= h'
    requires Encodable(pixels, w, h, channels) && Encodable(pixels', w', h', channels')
    requires |Zlib(Raw(pixels, w * channels, h))| < WORD && |Zlib(Raw(pixels', w' * channels', h'))| < WORD
    requires PngFile(w, h, channels, pixels) == PngFile(w', h', channels', pixels')
    ensures w == w' && h == h' && channels == channels' && pixels == pixels'
  {
    hide ReadPng, PngFile, Raw, Zlib, Encodable;
    RoundTrip(w, h, channels, pixels);
    RoundTrip(w', h', channels', pixels');
  }

  /** Its zlib stream is not readable either: without rows there is no final block. */
  lemma NoRowsNoFinalBlock(w: u16, channels: nat)
    requires 1 <= w
    ensures ReadZlib(Zlib(Raw([], w * channels, 0))) == None
  {
    hide Be32;
    var z := Zlib(Raw([], w * channels, 0));
    assert Raw([], w * channels, 0) == [];
    assert z[2..] == Be32(AdlerWord([]));
  }
}
