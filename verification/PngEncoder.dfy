/**
 The PNG encoder of the snapshot path (src/iotc/png_gray.c): a writer whose error sticks, and an encoder
 that streams scanlines into stored deflate blocks through a (row, col) cursor and patches the IDAT
 length afterwards.
 */
module PngEncoder {
  import opened Bytes
  import opened Wrappers
  import opened Crc
  import opened PngReader
  import opened PngLayout
  import opened PngRoundTrip

  const ENOMEM := -12
  const EINVAL := -22

  // ---------------------------------------------------------------- the cursor

  /** A cursor (row, col) with `left` rows to go, the current one starting at pixel octet `base`. */
  ghost predicate CursorOk(pixels: seq<byte>, rowBytes: nat, base: nat, left: nat, col: nat) {
    && base + Area(rowBytes, left) == |pixels|
    && (rowBytes > 0 || left <= 1)
    && (col <= rowBytes || (rowBytes == 0 && col == 1))
    && (left == 0 ==> col == 0)
    && (left > 0 ==> base + rowBytes <= |pixels| && base + rowBytes + Area(rowBytes, left - 1) == |pixels|)
  }

  /** The scanline octets from the cursor on. */
  ghost function Rest(pixels: seq<byte>, rowBytes: nat, base: nat, left: nat, col: nat): seq<byte>
    requires CursorOk(pixels, rowBytes, base, left, col)
  {
    if col == 0 then Raw(pixels[base..], rowBytes, left)
    else pixels[base + col - 1..base + rowBytes] + Raw(pixels[base + rowBytes..], rowBytes, left - 1)
  }

  lemma CursorStart(pixels: seq<byte>, rowBytes: nat, rows: nat)
    requires |pixels| == Area(rowBytes, rows) && (rowBytes > 0 || rows <= 1)
    ensures CursorOk(pixels, rowBytes, 0, rows, 0)
    ensures Rest(pixels, rowBytes, 0, rows, 0) == Raw(pixels, rowBytes, rows)
  {
    if rows > 0 {
      RowsLeft(rowBytes, rows);
    }
    assert pixels[0..] == pixels;
  }

  lemma JoinOne(b: byte, s: seq<byte>, t: seq<byte>)
    ensures ([b] + s) + t == [b] + (s + t)
  {
  }

  /** Emitting the filter octet. */
  lemma FilterStep(pixels: seq<byte>, rowBytes: nat, base: nat, left: nat)
    requires CursorOk(pixels, rowBytes, base, left, 0) && 0 < left
    ensures CursorOk(pixels, rowBytes, base, left, 1)
    ensures Rest(pixels, rowBytes, base, left, 0) == [0] + Rest(pixels, rowBytes, base, left, 1)
  {
    hide Area;
    var tail := pixels[base..];
    assert Raw(tail, rowBytes, left) == [0] + (tail[..rowBytes] + Raw(tail[rowBytes..], rowBytes, left - 1));
    assert tail[rowBytes..] == pixels[base + rowBytes..];
    assert tail[..rowBytes] == pixels[base..base + rowBytes];
  }

  /** Inside a row with octets to come there are pixels. */
  lemma PixelsLeft(pixels: seq<byte>, rowBytes: nat, base: nat, left: nat, col: nat)
    requires CursorOk(pixels, rowBytes, base, left, col) && 0 < col
    requires Rest(pixels, rowBytes, base, left, col) != []
    ensures 0 < rowBytes
  {
  }

  /** Emitting a pixel octet inside a row. */
  lemma PixelStep(pixels: seq<byte>, rowBytes: nat, base: nat, left: nat, col: nat)
    requires CursorOk(pixels, rowBytes, base, left, col) && 0 < col < rowBytes
    ensures CursorOk(pixels, rowBytes, base, left, col + 1)
    ensures Rest(pixels, rowBytes, base, left, col)
         == [pixels[base + col - 1]] + Rest(pixels, rowBytes, base, left, col + 1)
  {
    hide Area, Raw;
    var here := pixels[base + col - 1..base + rowBytes];
    assert here == [pixels[base + col - 1]] + pixels[base + col..base + rowBytes];
    JoinOne(pixels[base + col - 1], pixels[base + col..base + rowBytes],
            Raw(pixels[base + rowBytes..], rowBytes, left - 1));
  }

  /** Emitting the last pixel octet of a row. */
  lemma RowEndStep(pixels: seq<byte>, rowBytes: nat, base: nat, left: nat)
    requires CursorOk(pixels, rowBytes, base, left, rowBytes) && 0 < rowBytes
    ensures CursorOk(pixels, rowBytes, base + rowBytes, left - 1, 0)
    ensures Rest(pixels, rowBytes, base, left, rowBytes)
         == [pixels[base + rowBytes - 1]] + Rest(pixels, rowBytes, base + rowBytes, left - 1, 0)
  {
    hide Area;
    assert pixels[base + rowBytes - 1..base + rowBytes] == [pixels[base + rowBytes - 1]];
    if left > 1 {
      RowsLeft(rowBytes, left - 1);
    }
  }

  // ---------------------------------------------------------------- the checksum

  lemma {:induction false} SumAppend(d: seq<byte>, b: byte)
    ensures Sum(d + [b]) == Sum(d) + b
    ensures WeightedSum(d + [b]) == WeightedSum(d) + Sum(d) + b
  {
    if d == [] {
      assert d + [b] == [b];
      assert [b][1..] == [];
    } else {
      SumAppend(d[1..], b);
      assert (d + [b])[1..] == d[1..] + [b];
      assert (|d| + 1) * d[0] == |d| * d[0] + d[0];
    }
  }

  function AdlerA(d: seq<byte>): nat {
    (1 + Sum(d)) % 65521
  }

  function AdlerB(d: seq<byte>): nat {
    (|d| + WeightedSum(d)) % 65521
  }

  lemma AddMod(x: nat, y: nat)
    ensures (x % 65521 + y) % 65521 == (x + y) % 65521
  {
  }

  /** One turn of the running sums, each reduced modulo 65521, keeps them the closed forms. */
  lemma AdlerStep(d: seq<byte>, b: byte)
    ensures (AdlerA(d) + b) % 65521 == AdlerA(d + [b])
    ensures (AdlerB(d) + AdlerA(d + [b])) % 65521 == AdlerB(d + [b])
  {
    SumAppend(d, b);
    AddMod(1 + Sum(d), b);
    AddMod(|d| + WeightedSum(d), AdlerA(d + [b]));
    AddMod(1 + Sum(d + [b]), |d| + WeightedSum(d));
  }

  /** Writing four octets over four others, and nothing else. */
  lemma Patched(s: seq<byte>, t: seq<byte>, at: nat, word: seq<byte>)
    requires |s| == |t| && at + 4 <= |s| && |word| == 4
    requires forall i :: 0 <= i < |s| ==> t[i] == if at <= i < at + 4 then word[i - at] else s[i]
    ensures t == s[..at] + word + s[at + 4..]
  {
  }

  // ---------------------------------------------------------------- the writer

  class Writer {
    const buf: array<byte>
    const cap: nat
    var len: nat
    var err: int
    ghost var stream: seq<byte>   // everything the callers asked to write

    ghost predicate Valid()
      reads this, buf
    {
      && cap <= buf.Length
      && (err == 0 ==> len == |stream| <= cap && buf[..len] == stream)
      && (err != 0 ==> err == ENOMEM && cap < |stream|)
    }

    constructor (out: array<byte>, outSize: nat)
      requires outSize <= out.Length
      ensures Valid() && stream == [] && err == 0 && len == 0
      ensures buf == out && cap == outSize
    {
      buf, cap, len, err := out, outSize, 0, 0;
      stream := [];
    }

    /** Once a write does not fit, nothing more is written and the error stays. */
    method PutBytes(data: seq<byte>)
      requires Valid() && |stream| + |data| < WORD
      modifies this`len, this`err, this`stream, buf
      ensures Valid() && stream == old(stream) + data
      ensures buf[cap..] == old(buf[cap..])
      ensures err != 0 ==> len == old(len) && buf[..] == old(buf[..])
    {
      stream := stream + data;
      if err != 0 {
        return;
      }
      if len + |data| > cap {
        err := ENOMEM;
        return;
      }
      forall i | 0 <= i < |data| {
        buf[len + i] := data[i];
      }
      assert buf[len..len + |data|] == data;
      assert buf[..len + |data|] == buf[..len] + buf[len..len + |data|];
      len := len + |data|;
    }

    method PutBe32(v: u32)
      requires Valid() && |stream| + 4 < WORD
      modifies this`len, this`err, this`stream, buf
      ensures Valid() && stream == old(stream) + Be32(v)
      ensures buf[cap..] == old(buf[cap..])
    {
      PutBytes(Be32(v));
    }

    /** Overwrites the four octets at `at`, which stand between `before` and `after`. */
    method PatchBe32(at: nat, v: u32, ghost before: seq<byte>, ghost after: seq<byte>)
      requires Valid() && err == 0
      requires at == |before| && stream == before + Be32(0) + after
      modifies this`stream, buf
      ensures Valid() && stream == before + Be32(v) + after
      ensures buf[cap..] == old(buf[cap..])
    {
      var word := Be32(v);
      ghost var was := buf[..len];
      forall i | 0 <= i < 4 {
        buf[at + i] := word[i];
      }
      Patched(was, buf[..len], at, word);
      assert was[..at] == before && was[at + 4..] == after;
      stream := before + word + after;
    }

    method PutChunk(tag: seq<byte>, payload: seq<byte>)
      requires Valid() && |tag| == 4 && |stream| + |payload| + 12 < WORD
      modifies this`len, this`err, this`stream, buf
      ensures Valid() && stream == old(stream) + MakeChunk(tag, payload)
      ensures buf[cap..] == old(buf[cap..])
    {
      hide Crc32, Be32;
      ghost var before := stream;
      PutBe32(|payload|);
      var crcStart := len;
      PutBytes(tag);
      PutBytes(payload);
      if err == 0 {
        assert buf[..len] == before + Be32(|payload|) + tag + payload;
        assert buf[crcStart..crcStart + 4 + |payload|] == tag + payload;
        var crc := IotvCrc32(buf, crcStart, 4 + |payload|);
        PutBe32(crc);
      } else {
        // The source asks for no checksum after an error; the stream is already too long.
        stream := stream + Be32(Crc32(tag + payload));
      }
    }
  }

  // ---------------------------------------------------------------- the encoder

  lemma RestEmpty(pixels: seq<byte>, rowBytes: nat, base: nat, col: nat)
    requires CursorOk(pixels, rowBytes, base, 0, col)
    ensures Rest(pixels, rowBytes, base, 0, col) == []
  {
  }

  lemma BlocksUnfold(raw: seq<byte>)
    requires raw != []
    ensures var n := BlockSize(|raw|); Blocks(raw) == BlockHeader(n == |raw|, n) + raw[..n] + Blocks(raw[n..])
  {
  }

  lemma TailShift(raw: seq<byte>, k: nat, b: byte, rest: seq<byte>)
    requires k < |raw| && raw[k..] == [b] + rest
    ensures raw[k] == b && raw[k + 1..] == rest
    ensures raw[..k + 1] == raw[..k] + [b]
  {
    assert raw[k..][0] == b;
    assert raw[k..][1..] == raw[k + 1..];
  }

  /** The octets [from, to) of a run, one longer. */
  lemma SliceGrow(raw: seq<byte>, from: nat, to: nat)
    requires from <= to < |raw|
    ensures raw[from..to + 1] == raw[from..to] + [raw[to]]
  {
  }

  lemma AreaIs(rowBytes: nat, rows: nat)
    ensures Area(rowBytes, rows) == rows * rowBytes
  {
  }

  lemma AreaNext(rowBytes: nat, rows: nat)
    ensures Area(rowBytes, rows + 1) == Area(rowBytes, rows) + rowBytes
  {
  }

  /** The octet under the cursor, and the cursor moved past it. */
  method NextOctet(pixels: seq<byte>, rowBytes: nat, h: u16, row: nat, col: nat, ghost base: nat, ghost left: nat)
    returns (octet: byte, row': nat, col': nat, ghost base': nat, ghost left': nat)
    requires 0 < left && row + left == h && base == Area(rowBytes, row)
    requires CursorOk(pixels, rowBytes, base, left, col) && Rest(pixels, rowBytes, base, left, col) != []
    ensures row' + left' == h && base' == Area(rowBytes, row')
    ensures CursorOk(pixels, rowBytes, base', left', col')
    ensures Rest(pixels, rowBytes, base, left, col) == [octet] + Rest(pixels, rowBytes, base', left', col')
    ensures octet == Rest(pixels, rowBytes, base, left, col)[0]
  {
    hide Area, Raw, Rest;
    row', base', left' := row, base, left;
    if col == 0 {
      FilterStep(pixels, rowBytes, base, left);
      octet := 0; // filter: none
      col' := 1;
    } else {
      PixelsLeft(pixels, rowBytes, base, left, col);
      AreaIs(rowBytes, row);
      octet := pixels[row * rowBytes + (col - 1)];
      col' := col + 1;
      if col' == rowBytes + 1 {
        RowEndStep(pixels, rowBytes, base, left);
        AreaNext(rowBytes, row);
        col' := 0;
        row' := row + 1;
        base', left' := base + rowBytes, left - 1;
      } else {
        PixelStep(pixels, rowBytes, base, left, col);
      }
    }
  }

  lemma RowsRemain(pixels: seq<byte>, rowBytes: nat, base: nat, left: nat, col: nat)
    requires CursorOk(pixels, rowBytes, base, left, col)
    requires Rest(pixels, rowBytes, base, left, col) != []
    ensures 0 < left
  {
    if left == 0 {
      RestEmpty(pixels, rowBytes, base, col);
    }
  }

  /** The body of one stored block: the next `block` scanline octets. */
  method EmitBlock(pw: Writer, pixels: seq<byte>, rowBytes: nat, h: u16, emitted: nat, block: nat,
                   row0: nat, col0: nat, ghost base0: nat, ghost left0: nat, a0: nat, b0: nat)
    returns (row: nat, col: nat, ghost base: nat, ghost left: nat, adlerA: nat, adlerB: nat)
    requires pw.Valid() && |pw.stream| + block < 0x8000_0000
    requires |pixels| == Area(rowBytes, h)
    requires emitted + block <= |Raw(pixels, rowBytes, h)|
    requires row0 + left0 == h && base0 == Area(rowBytes, row0)
    requires CursorOk(pixels, rowBytes, base0, left0, col0)
    requires Raw(pixels, rowBytes, h)[emitted..] == Rest(pixels, rowBytes, base0, left0, col0)
    requires a0 == AdlerA(Raw(pixels, rowBytes, h)[..emitted]) && b0 == AdlerB(Raw(pixels, rowBytes, h)[..emitted])
    modifies pw`len, pw`err, pw`stream, pw.buf
    ensures pw.Valid()
    ensures pw.stream == old(pw.stream) + Raw(pixels, rowBytes, h)[emitted..emitted + block]
    ensures pw.buf[pw.cap..] == old(pw.buf[pw.cap..])
    ensures row + left == h && base == Area(rowBytes, row)
    ensures CursorOk(pixels, rowBytes, base, left, col)
    ensures Raw(pixels, rowBytes, h)[emitted + block..] == Rest(pixels, rowBytes, base, left, col)
    ensures adlerA == AdlerA(Raw(pixels, rowBytes, h)[..emitted + block])
    ensures adlerB == AdlerB(Raw(pixels, rowBytes, h)[..emitted + block])
  {
    hide Area, Raw, Rest, AdlerA, AdlerB, CursorOk;
    ghost var raw := Raw(pixels, rowBytes, h);
    row, col, base, left, adlerA, adlerB := row0, col0, base0, left0, a0, b0;
    assert raw[emitted..emitted] == [];
    for i := 0 to block
      invariant pw.Valid() && pw.stream == old(pw.stream) + raw[emitted..emitted + i]
      invariant pw.buf[pw.cap..] == old(pw.buf[pw.cap..])
      invariant row + left == h && base == Area(rowBytes, row)
      invariant CursorOk(pixels, rowBytes, base, left, col)
      invariant raw[emitted + i..] == Rest(pixels, rowBytes, base, left, col)
      invariant adlerA == AdlerA(raw[..emitted + i]) && adlerB == AdlerB(raw[..emitted + i])
    {
      RowsRemain(pixels, rowBytes, base, left, col);
      var octet;
      octet, row, col, base, left := NextOctet(pixels, rowBytes, h, row, col, base, left);
      TailShift(raw, emitted + i, octet, Rest(pixels, rowBytes, base, left, col));
      SliceGrow(raw, emitted, emitted + i);
      AdlerStep(raw[..emitted + i], octet);
      pw.PutBytes([octet]);
      adlerA := (adlerA + octet) % 65521;
      adlerB := (adlerB + adlerA) % 65521;
    }
  }

  /** Where the output stands after `emitted` octets of a scanline run. */
  lemma BlockJoins(raw: seq<byte>, emitted: nat, before: seq<byte>)
    requires emitted < |raw|
    ensures var n := BlockSize(|raw| - emitted);
      before + BlockHeader(emitted + n == |raw|, n) + raw[emitted..emitted + n] + Blocks(raw[emitted + n..])
      == before + Blocks(raw[emitted..])
  {
    hide BlockHeader;
    var n := BlockSize(|raw| - emitted);
    BlocksUnfold(raw[emitted..]);
    assert raw[emitted..][..n] == raw[emitted..emitted + n];
    assert raw[emitted..][n..] == raw[emitted + n..];
  }

  lemma BlocksNil()
    ensures Blocks([]) == []
  {
  }

  lemma AdlerStart()
    ensures AdlerA([]) == 1 && AdlerB([]) == 0
  {
  }

  lemma AreaZero(rowBytes: nat)
    ensures Area(rowBytes, 0) == 0
  {
  }

  /** Writes the scanlines as stored blocks and returns the running checksums. */
  method EmitScanlines(pw: Writer, pixels: seq<byte>, rowBytes: nat, h: u16) returns (adlerA: nat, adlerB: nat)
    requires pw.Valid()
    requires |pixels| == Area(rowBytes, h) && (rowBytes > 0 || h <= 1)
    requires |pw.stream| + |Blocks(Raw(pixels, rowBytes, h))| < 0x8000_0000
    modifies pw`len, pw`err, pw`stream, pw.buf
    ensures pw.Valid()
    ensures pw.stream == old(pw.stream) + Blocks(Raw(pixels, rowBytes, h))
    ensures pw.buf[pw.cap..] == old(pw.buf[pw.cap..])
    ensures adlerA == AdlerA(Raw(pixels, rowBytes, h)) && adlerB == AdlerB(Raw(pixels, rowBytes, h))
  {
    hide Area, Raw, Rest, Blocks, BlockHeader, AdlerA, AdlerB, CursorOk;
    ghost var raw := Raw(pixels, rowBytes, h);
    ghost var all := pw.stream + Blocks(raw);
    var rawTotal := Area(rowBytes + 1, h);
    CursorStart(pixels, rowBytes, h);
    AdlerStart();
    AreaZero(rowBytes);
    adlerA, adlerB := 1, 0;
    var emitted: nat, row: nat, col: nat := 0, 0, 0;
    ghost var base: nat, left: nat := 0, h;
    assert raw[..0] == [] && raw[0..] == raw;
    while emitted < rawTotal
      invariant emitted <= rawTotal == |raw|
      invariant pw.Valid() && pw.stream + Blocks(raw[emitted..]) == all
      invariant pw.buf[pw.cap..] == old(pw.buf[pw.cap..])
      invariant row + left == h && base == Area(rowBytes, row)
      invariant CursorOk(pixels, rowBytes, base, left, col)
      invariant raw[emitted..] == Rest(pixels, rowBytes, base, left, col)
      invariant adlerA == AdlerA(raw[..emitted]) && adlerB == AdlerB(raw[..emitted])
    {
      var block := BlockSize(rawTotal - emitted);
      BlockJoins(raw, emitted, pw.stream);
      pw.PutBytes(BlockHeader(emitted + block == rawTotal, block));
      row, col, base, left, adlerA, adlerB :=
        EmitBlock(pw, pixels, rowBytes, h, emitted, block, row, col, base, left, adlerA, adlerB);
      emitted := emitted + block;
    }
    assert raw[..emitted] == raw;
    BlocksNil();
    assert raw[emitted..] == [];
  }

  lemma AdlerWordIs(raw: seq<byte>)
    ensures AdlerWord(raw) == AdlerB(raw) * 65536 + AdlerA(raw)
  {
  }

  lemma StreamSoFar(head: seq<byte>, raw: seq<byte>)
    ensures head + Be32(0) + IDAT + [0x78, 0x01] + Blocks(raw) + Be32(AdlerWord(raw))
         == head + Be32(0) + IDAT + Zlib(raw)
  {
    hide Blocks, AdlerWord, Be32;
  }

  method PutHead(pw: Writer, w: u16, h: u16, channels: byte)
    requires pw.Valid() && pw.stream == []
    modifies pw`len, pw`err, pw`stream, pw.buf
    ensures pw.Valid() && pw.buf[pw.cap..] == old(pw.buf[pw.cap..])
    ensures pw.stream == Head(w, h, channels)
  {
    hide MakeChunk, Be32;
    pw.PutBytes(SIGNATURE);
    pw.PutChunk(IHDR, Be32(w) + Be32(h) + [8, if channels == 3 then 2 else 0, 0, 0, 0]);
  }

  /** Signature, header chunk, and an IDAT chunk whose length is still 0 and whose checksum is missing. */
  method PutUnpatched(pw: Writer, pixels: seq<byte>, w: u16, h: u16, channels: byte)
    returns (idatLenPos: nat, idatTagPos: nat)
    requires pw.Valid() && pw.stream == [] && pw.err == 0
    requires channels == 1 || channels == 3
    requires Encodable(pixels, w, h, channels)
    modifies pw`len, pw`err, pw`stream, pw.buf
    ensures pw.Valid() && pw.buf[pw.cap..] == old(pw.buf[pw.cap..])
    ensures pw.stream == Head(w, h, channels) + Be32(0) + IDAT + Zlib(Raw(pixels, w * channels, h))
    ensures pw.err == 0 ==> idatLenPos == |Head(w, h, channels)| && idatTagPos == idatLenPos + 4
  {
    hide Raw, Blocks, EncodedLength, Area, AdlerA, AdlerB, Adler32, MakeChunk, PngFile, Be32, Crc32,
      BlockCount, RawLength;
    FilePieces(w, h, channels, pixels);
    var rowBytes: nat := w * channels;

    PutHead(pw, w, h, channels);
    idatLenPos := pw.len;
    pw.PutBe32(0);
    idatTagPos := pw.len;
    pw.PutBytes(IDAT);
    pw.PutBytes([0x78, 0x01]);
    var adlerA, adlerB := EmitScanlines(pw, pixels, rowBytes, h);
    AdlerWordIs(Raw(pixels, rowBytes, h));
    pw.PutBe32(adlerB * 65536 + adlerA);
    StreamSoFar(Head(w, h, channels), Raw(pixels, rowBytes, h));
  }

  lemma WholeFile(w: u16, h: u16, channels: nat, pixels: seq<byte>)
    requires Encodable(pixels, w, h, channels)
    requires |Zlib(Raw(pixels, w * channels, h))| < WORD
    ensures var body := Zlib(Raw(pixels, w * channels, h));
      Head(w, h, channels) + Be32(|body|) + (IDAT + body) + Be32(Crc32(IDAT + body)) + MakeChunk(IEND, [])
      == PngFile(w, h, channels, pixels)
  {
    hide Raw, Zlib, Be32, Crc32, Area, EncodedLength, Head;
  }

  lemma CountIs(raw: nat)
    ensures BlockCount(raw) == (raw + 65534) / 65535
  {
  }

  lemma RawIs(w: nat, h: nat, channels: nat)
    ensures RawLength(w, h, channels) == (w * channels + 1) * h
  {
  }

  lemma LengthIs(w: nat, h: nat, channels: nat)
    ensures var raw := (w * channels + 1) * h; EncodedLength(w, h, channels) == 63 + raw + 5 * ((raw + 65534) / 65535)
  {
    hide RawLength, BlockCount;
    RawIs(w, h, channels);
    CountIs(RawLength(w, h, channels));
  }

  /** Encodes an image into out[..outSize]; answers the length, or a negative error. */
  method PngEncode(pixels: seq<byte>, w: u16, h: u16, channels: byte, out: array<byte>, outSize: nat) returns (ret: int)
    requires outSize <= out.Length && outSize < WORD
    requires channels == 1 || channels == 3 ==> Encodable(pixels, w, h, channels)
    modifies out
    ensures out[outSize..] == old(out[outSize..])
    ensures channels != 1 && channels != 3 ==> ret == -22 && out[..] == old(out[..])
    ensures channels == 1 || channels == 3 ==>
      var raw := (w * channels + 1) * h;
      var length := 63 + raw + 5 * ((raw + 65534) / 65535);
      length == EncodedLength(w, h, channels) && ret == if length <= outSize then length else -12
    ensures (channels == 1 || channels == 3) && EncodedLength(w, h, channels) <= outSize ==>
      |Zlib(Raw(pixels, w * channels, h))| < WORD && out[..ret] == PngFile(w, h, channels, pixels)
    ensures (channels == 1 || channels == 3) && EncodedLength(w, h, channels) <= outSize ==>
      ReadPng(out[..ret]) == if 1 <= w && 1 <= h then Some(Image(w, h, if channels == 3 then 2 else 0, pixels)) else None
  {
    hide Raw, Zlib, EncodedLength, Area, MakeChunk, PngFile, Be32, Crc32, Head, ReadPng;
    if channels != 1 && channels != 3 {
      return EINVAL;
    }
    LengthIs(w, h, channels);
    FilePieces(w, h, channels, pixels);
    ghost var head, body := Head(w, h, channels), Zlib(Raw(pixels, w * channels, h));
    var pw := new Writer(out, outSize);
    var idatLenPos, idatTagPos := PutUnpatched(pw, pixels, w, h, channels);
    if pw.err != 0 {
      return pw.err;
    }

    var idatPayload := pw.len - idatTagPos - 4;
    assert pw.stream == head + Be32(0) + (IDAT + body);
    pw.PatchBe32(idatLenPos, idatPayload, head, IDAT + body);
    assert pw.stream[idatTagPos..] == IDAT + body;
    assert out[idatTagPos..idatTagPos + 4 + idatPayload] == pw.stream[idatTagPos..];
    var crc := IotvCrc32(out, idatTagPos, 4 + idatPayload);
    pw.PutBe32(crc);
    pw.PutChunk(IEND, []);
    WholeFile(w, h, channels, pixels);
    RoundTrip(w, h, channels, pixels);
    ret := if pw.err == 0 then pw.len else pw.err;
  }
}
