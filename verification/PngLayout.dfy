/**
 The byte layout the PNG encoder is to produce, and how long it is.
 */
module PngLayout {
  import opened Bytes
  import opened Crc
  import opened PngReader

  const STORED_BLOCK_MAX := 65535

  // ---------------------------------------------------------------- rows

  /** Octets in a number of rows. */
  function Area(rowBytes: nat, rows: nat): nat {
    rowBytes * rows
  }

  lemma RowsLeft(rowBytes: nat, left: nat)
    requires left > 0
    ensures Area(rowBytes, left) == rowBytes + Area(rowBytes, left - 1)
  {
  }

  // ---------------------------------------------------------------- what the encoder is to write

  function MakeChunk(tag: seq<byte>, body: seq<byte>): (chunk: seq<byte>)
    requires |body| < WORD
    ensures |chunk| == |tag| + |body| + 8
  {
    Be32(|body|) + tag + body + Be32(Crc32(tag + body))
  }

  /** Scanlines, each behind a filter octet of 0. */
  function Raw(pixels: seq<byte>, rowBytes: nat, rows: nat): (r: seq<byte>)
    requires |pixels| == Area(rowBytes, rows)
    ensures |r| == Area(rowBytes + 1, rows)
    decreases rows
  {
    if rows == 0 then []
    else
      RowsLeft(rowBytes, rows);
      RowsLeft(rowBytes + 1, rows);
      [0] + pixels[..rowBytes] + Raw(pixels[rowBytes..], rowBytes, rows - 1)
  }

  function BlockHeader(final: bool, n: nat): (r: seq<byte>)
    requires n <= STORED_BLOCK_MAX
    ensures |r| == 5
  {
    [if final then 1 else 0, n % 256, n / 256, 255 - n % 256, 255 - n / 256]
  }

  function BlockSize(remaining: nat): nat {
    if remaining > STORED_BLOCK_MAX then STORED_BLOCK_MAX else remaining
  }

  function Blocks(raw: seq<byte>): seq<byte>
    decreases |raw|
  {
    if raw == [] then []
    else
      var n := BlockSize(|raw|);
      BlockHeader(n == |raw|, n) + raw[..n] + Blocks(raw[n..])
  }

  function HeaderBody(w: u16, h: u16, channels: nat): seq<byte> {
    Be32(w) + Be32(h) + [8, if channels == 3 then 2 else 0, 0, 0, 0]
  }

  function Head(w: u16, h: u16, channels: nat): (head: seq<byte>)
    ensures |head| == 33
  {
    SIGNATURE + MakeChunk(IHDR, HeaderBody(w, h, channels))
  }

  function AdlerWord(raw: seq<byte>): u32 {
    Adler32(raw)
  }

  function Zlib(raw: seq<byte>): seq<byte> {
    [0x78, 0x01] + Blocks(raw) + Be32(AdlerWord(raw))
  }

  function PngFile(w: u16, h: u16, channels: nat, pixels: seq<byte>): seq<byte>
    requires |pixels| == Area(w * channels, h)
    requires |Zlib(Raw(pixels, w * channels, h))| < WORD
  {
    Head(w, h, channels)
    + MakeChunk(IDAT, Zlib(Raw(pixels, w * channels, h)))
    + MakeChunk(IEND, [])
  }

  // ---------------------------------------------------------------- lengths

  function RawLength(w: nat, h: nat, channels: nat): nat {
    Area(w * channels + 1, h)
  }

  /** ceil(raw / 65535) */
  function BlockCount(raw: nat): nat {
    (raw + STORED_BLOCK_MAX - 1) / STORED_BLOCK_MAX
  }

  function EncodedLength(w: nat, h: nat, channels: nat): nat {
    63 + RawLength(w, h, channels) + 5 * BlockCount(RawLength(w, h, channels))
  }

  lemma {:induction false} BlocksLength(raw: seq<byte>)
    ensures |Blocks(raw)| == |raw| + 5 * BlockCount(|raw|)
    decreases |raw|
  {
    if raw != [] {
      var n := BlockSize(|raw|);
      BlocksLength(raw[n..]);
      if n < |raw| {
        assert BlockCount(|raw|) == 1 + BlockCount(|raw| - STORED_BLOCK_MAX);
      }
    }
  }

  lemma LengthOfBlocks(w: u16, h: u16, channels: nat, raw: seq<byte>)
    requires |raw| == Area(w * channels + 1, h)
    ensures EncodedLength(w, h, channels) == 63 + |Blocks(raw)|
  {
    hide Blocks, BlockCount;
    BlocksLength(raw);
  }

  lemma FileLength(w: u16, h: u16, channels: nat, pixels: seq<byte>)
    requires |pixels| == Area(w * channels, h)
    requires EncodedLength(w, h, channels) < 0x8000_0000
    ensures |Zlib(Raw(pixels, w * channels, h))| < WORD
    ensures |PngFile(w, h, channels, pixels)| == EncodedLength(w, h, channels)
  {
    hide Raw, Blocks, BlockCount, RawLength, Adler32, Be32, Crc32;
    LengthOfBlocks(w, h, channels, Raw(pixels, w * channels, h));
  }

  // ---------------------------------------------------------------- images that can be encoded

  /**
   The pixels of an image of any size.  An image without columns has at most one row: for more the source
   looks for pixels that are not there.
   */
  ghost predicate Encodable(pixels: seq<byte>, w: u16, h: u16, channels: nat) {
    && (1 <= w || h <= 1)
    && |pixels| == Area(w * channels, h)
    && EncodedLength(w, h, channels) < 0x8000_0000
  }

  lemma FilePieces(w: u16, h: u16, channels: nat, pixels: seq<byte>)
    requires Encodable(pixels, w, h, channels)
    ensures var raw := Raw(pixels, w * channels, h); var body := Zlib(raw);
      && |body| < WORD
      && |body| == 6 + |Blocks(raw)|
      && EncodedLength(w, h, channels) == 57 + |body|
      && |PngFile(w, h, channels, pixels)| == EncodedLength(w, h, channels)
  {
    FileLength(w, h, channels, pixels);
    BlocksLength(Raw(pixels, w * channels, h));
  }

  lemma Slices(head: seq<byte>, body: seq<byte>, last: seq<byte>, i: nat, j: nat)
    requires i <= j <= |body|
    ensures (head + body + last)[|head| + i..|head| + j] == body[i..j]
    ensures (head + body + last)[|head| + |body|..] == last
  {
  }

  lemma LastChunk()
    ensures MakeChunk(IEND, []) == [0, 0, 0, 0, 73, 69, 78, 68, 0xAE, 0x42, 0x60, 0x82]
  {
    hide Crc32;
    KnownChecksums();
    assert IEND + [] == [73, 69, 78, 68];
  }

  lemma HeadOctets(w: u16, h: u16, channels: nat)
    ensures var head := Head(w, h, channels);
      && head[..16] == [137, 80, 78, 71, 13, 10, 26, 10, 0, 0, 0, 13, 73, 72, 68, 82]
      && head[16..20] == Be32(w) && head[20..24] == Be32(h)
      && head[24..29] == [8, if channels == 3 then 2 else 0, 0, 0, 0]
  {
    hide Crc32;
    assert Be32(13) == [0, 0, 0, 13];
  }

  lemma Prefixes(head: seq<byte>, rest: seq<byte>)
    requires |head| == 33
    ensures var f := head + rest;
      f[..16] == head[..16] && f[16..20] == head[16..20] && f[20..24] == head[20..24] && f[24..29] == head[24..29]
  {
  }

  /** The octets of a file in the places the standards give them. */
  lemma FileOctets(w: u16, h: u16, channels: nat, pixels: seq<byte>)
    requires Encodable(pixels, w, h, channels)
    ensures |Zlib(Raw(pixels, w * channels, h))| < WORD
    ensures var f := PngFile(w, h, channels, pixels); var n := |f|;
      && 63 <= n
      && f[..16] == [137, 80, 78, 71, 13, 10, 26, 10, 0, 0, 0, 13, 73, 72, 68, 82]
      && f[16..20] == Be32(w) && f[20..24] == Be32(h)
      && f[24..29] == [8, if channels == 3 then 2 else 0, 0, 0, 0]
      && f[33..37] == Be32(n - 57)
      && f[37..43] == [73, 68, 65, 84, 0x78, 0x01]
      && f[n - 12..] == [0, 0, 0, 0, 73, 69, 78, 68, 0xAE, 0x42, 0x60, 0x82]
  {
    hide Raw, Blocks, Adler32, AdlerWord, Crc32, EncodedLength, Area, Head, Be32;
    FilePieces(w, h, channels, pixels);
    HeadOctets(w, h, channels);
    LastChunk();
    var z := Zlib(Raw(pixels, w * channels, h));
    var head, body, last := Head(w, h, channels), MakeChunk(IDAT, z), MakeChunk(IEND, []);
    Slices(head, body, last, 0, 4);
    Slices(head, body, last, 4, 10);
    assert body[..4] == Be32(|z|) && body[4..10] == IDAT + [0x78, 0x01];
    Prefixes(head, body + last);
    assert head + body + last == head + (body + last);
  }
}
