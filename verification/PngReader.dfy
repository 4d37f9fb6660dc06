/**
 A reader for 8-bit greyscale and truecolour PNG files, written from the standards alone: RFC 2083 for
 the file, RFC 1950 for the zlib stream and RFC 1951 for the stored deflate blocks.  It shares only the
 CRC definition and the byte orders with the encoder.
 */
module PngReader {
  import opened Bytes
  import opened Wrappers
  import opened Crc

  datatype Image = Image(width: nat, height: nat, colorType: byte, pixels: seq<byte>)

  datatype Chunk = Chunk(tag: seq<byte>, body: seq<byte>)

  // RFC 2083, section 3.1
  const SIGNATURE: seq<byte> := [137, 80, 78, 71, 13, 10, 26, 10]

  const IHDR: seq<byte> := [73, 72, 68, 82]
  const IDAT: seq<byte> := [73, 68, 65, 84]
  const IEND: seq<byte> := [73, 69, 78, 68]

  /** One chunk and what follows it (RFC 2083, sections 3.2 and 3.4). */
  function ReadChunk(s: seq<byte>): (r: Option<(Chunk, seq<byte>)>)
    ensures r.Some? ==> |r.value.1| < |s|
  {
    if |s| < 12 then None
    else
      var n := FromBe32(s);
      if n >= 0x8000_0000 || |s| < 12 + n then None
      else if FromBe32(s[8 + n..]) != Crc32(s[4..8 + n]) then None
      else Some((Chunk(s[4..8], s[8..8 + n]), s[12 + n..]))
  }

  function ReadChunks(s: seq<byte>): Option<seq<Chunk>>
    decreases |s|
  {
    if s == [] then Some([])
    else
      match ReadChunk(s)
      case None => None
      case Some((chunk, rest)) =>
        match ReadChunks(rest)
        case None => None
        case Some(chunks) => Some([chunk] + chunks)
  }

  /** The image data: the bodies of the IDAT chunks, joined (RFC 2083, section 4.1.3). */
  function JoinIdat(chunks: seq<Chunk>): Option<seq<byte>> {
    if chunks == [] then Some([])
    else if chunks[0].tag != IDAT then None
    else
      match JoinIdat(chunks[1..])
      case None => None
      case Some(rest) => Some(chunks[0].body + rest)
  }

  // ---------------------------------------------------------------- RFC 1950

  function Sum(d: seq<byte>): nat {
    if d == [] then 0 else d[0] + Sum(d[1..])
  }

  /** Each octet counted once for every sum it takes part in. */
  function WeightedSum(d: seq<byte>): nat {
    if d == [] then 0 else |d| * d[0] + WeightedSum(d[1..])
  }

  /** Adler-32 in closed form (RFC 1950, section 2.2). */
  function Adler32(d: seq<byte>): nat {
    (|d| + WeightedSum(d)) % 65521 * 65536 + (1 + Sum(d)) % 65521
  }

  /**
   Stored deflate blocks up to and including the one marked final, and what follows it
   (RFC 1951, sections 3.2.3 and 3.2.4).
   */
  function ReadStored(s: seq<byte>): Option<(seq<byte>, seq<byte>)>
    decreases |s|
  {
    if |s| < 5 then None
    else
      var final := s[0] % 2 == 1;
      var kind := s[0] / 2 % 4;
      var len, nlen := FromLe16(s[1..]), FromLe16(s[3..]);
      if kind != 0 || nlen != 0xFFFF - len || |s| < 5 + len then None
      else if final then Some((s[5..5 + len], s[5 + len..]))
      else
        match ReadStored(s[5 + len..])
        case None => None
        case Some((more, rest)) => Some((s[5..5 + len] + more, rest))
  }

  /** A zlib stream holding stored blocks only (RFC 1950, sections 2.2 and 2.3). */
  function ReadZlib(s: seq<byte>): Option<seq<byte>> {
    if |s| < 2 then None
    else
      var cmf: int, flg: int := s[0], s[1];
      if cmf % 16 != 8 || cmf / 16 > 7 || (cmf * 256 + flg) % 31 != 0 || flg / 32 % 2 != 0 then None
      else
        match ReadStored(s[2..])
        case None => None
        case Some((data, check)) =>
          if |check| == 4 && FromBe32(check) == Adler32(data) then Some(data) else None
  }

  // ---------------------------------------------------------------- the file

  /** Scanlines of filter type 0 (RFC 2083, section 6.2). */
  function Unfilter(d: seq<byte>, rowBytes: nat, rows: nat): Option<seq<byte>> {
    if rows == 0 then (if d == [] then Some([]) else None)
    else if |d| < 1 + rowBytes || d[0] != 0 then None
    else
      match Unfilter(d[1 + rowBytes..], rowBytes, rows - 1)
      case None => None
      case Some(rest) => Some(d[1..1 + rowBytes] + rest)
  }

  function Samples(colorType: byte): nat {
    if colorType == 2 then 3 else 1
  }

  /** Width, height and colour type (RFC 2083, section 4.1.1). */
  function ReadHeader(body: seq<byte>): Option<(nat, nat, byte)> {
    if |body| != 13 then None
    else
      var w, h := FromBe32(body), FromBe32(body[4..]);
      if 1 <= w < 0x8000_0000 && 1 <= h < 0x8000_0000
         && body[8] == 8 && (body[9] == 0 || body[9] == 2) && body[10..] == [0, 0, 0]
      then Some((w, h, body[9]))
      else None
  }

  function ReadImage(header: seq<byte>, zlib: seq<byte>): Option<Image> {
    match ReadHeader(header)
    case None => None
    case Some((w, h, colorType)) =>
      match ReadZlib(zlib)
      case None => None
      case Some(data) =>
        match Unfilter(data, w * Samples(colorType), h)
        case None => None
        case Some(pixels) => Some(Image(w, h, colorType, pixels))
  }

  function ReadPng(file: seq<byte>): Option<Image> {
    if |file| < 8 || file[..8] != SIGNATURE then None
    else
      match ReadChunks(file[8..])
      case None => None
      case Some(chunks) =>
        var n := |chunks|;
        if n < 3 || chunks[0].tag != IHDR || chunks[n - 1] != Chunk(IEND, []) then None
        else
          match JoinIdat(chunks[1..n - 1])
          case None => None
          case Some(zlib) => ReadImage(chunks[0].body, zlib)
  }
}
