/**
 The STORED zip convention of the model push: the device unwraps a downloaded archive in place, and
 the packer's blob comes out of it octet for octet.
 */
module Zip {
  import opened Bytes
  import opened Wrappers
  import opened Crc
  import opened Iotv

  const PK34: seq<byte> := [0x50, 0x4B, 3, 4]

  /** The fields of a local file header, section 4.3.7 of the PKWARE APPNOTE. */
  datatype LocalHeader = LocalHeader(
    version: u16, flags: u16, compression: u16, time: u16, date: u16,
    crc: u32, compressedSize: u32, size: u32, name: seq<byte>, extra: seq<byte>)

  ghost predicate HeaderOk(h: LocalHeader) {
    |h.name| < 0x1_0000 && |h.extra| < 0x1_0000
  }

  function Fixed(h: LocalHeader): (r: seq<byte>)
    requires HeaderOk(h)
    ensures |r| == 30
  {
    PK34 + Le16(h.version) + Le16(h.flags) + Le16(h.compression) + Le16(h.time) + Le16(h.date)
    + Le32(h.crc) + Le32(h.compressedSize) + Le32(h.size) + Le16(|h.name|) + Le16(|h.extra|)
  }

  function FileEntry(h: LocalHeader, data: seq<byte>): seq<byte>
    requires HeaderOk(h)
  {
    Fixed(h) + h.name + h.extra + data
  }

  /** One STORED entry holding `data`. */
  ghost predicate StoredEntry(h: LocalHeader, data: seq<byte>) {
    && HeaderOk(h)
    && h.compression == 0
    && h.compressedSize == |data|
    && 0 < |data|
    && 30 + |h.name| + |h.extra| + |data| < WORD
  }

  // ---------------------------------------------------------------- the unwrap

  predicate IsZip(d: seq<byte>) {
    34 <= |d| && d[..4] == PK34
  }

  function Compression(d: seq<byte>): u16
    requires |d| >= 34
  {
    FromLe16(d[8..])
  }

  function CompressedSize(d: seq<byte>): u32
    requires |d| >= 34
  {
    FromLe32(d[18..])
  }

  function DataOffset(d: seq<byte>): nat
    requires |d| >= 34
  {
    var nlen: nat, xlen: nat := FromLe16(d[26..]), FromLe16(d[28..]);
    30 + nlen + xlen
  }

  /** What the device makes of a download; `PastEnd` if it would move octets from behind the download. */
  datatype Unwrapping = Blob(data: seq<byte>) | Refused | PastEnd

  /** The test of the source, whose sum wraps at 32 bits. */
  predicate Passes(d: seq<byte>)
    requires |d| >= 34
  {
    Compression(d) == 0 && CompressedSize(d) != 0 && (DataOffset(d) + CompressedSize(d)) % WORD <= |d|
  }

  function Unwrapped(d: seq<byte>): Unwrapping {
    if !IsZip(d) then Blob(d)
    else if !Passes(d) then Refused
    else
      var off, n := DataOffset(d), CompressedSize(d);
      if off + n > |d| then PastEnd else Blob(d[off..off + n])
  }

  /**
   The octets of a download the device refuses: a local file header whose method is not 0, whose compressed
   size is 0, or whose name, extra field and data do not end, in 32 bits, within the download.
   */
  predicate NoStoredEntry(d: seq<byte>) {
    && 34 <= |d|
    && d[0] == 0x50 && d[1] == 0x4B && d[2] == 3 && d[3] == 4
    && var (a: int, b: int, c: int, e: int) := (d[18], d[19], d[20], d[21]);
       var size := a + 0x100 * b + 0x1_0000 * c + 0x100_0000 * e;
       || d[8] != 0 || d[9] != 0
       || size == 0
       || (30 + (d[26] + 0x100 * d[27]) + (d[28] + 0x100 * d[29]) + size) % 0x1_0000_0000 > |d|
  }

  lemma ZipMark(d: seq<byte>)
    ensures IsZip(d) <==> 34 <= |d| && d[0] == 0x50 && d[1] == 0x4B && d[2] == 3 && d[3] == 4
  {
    if 34 <= |d| {
      assert d[..4][0] == d[0] && d[..4][1] == d[1] && d[..4][2] == d[2] && d[..4][3] == d[3];
    }
  }

  /** Exactly those are refused. */
  lemma RefusedIff(d: seq<byte>)
    ensures Unwrapped(d) == Refused <==> NoStoredEntry(d)
    ensures |d| < 34 || d[..4] != [0x50, 0x4B, 3, 4] ==> Unwrapped(d) == Blob(d)
  {
    ZipMark(d);
  }

  /** An archive that passes the test is moved from within the download exactly when the sum does not wrap. */
  lemma MoveInBoundsIff(d: seq<byte>)
    requires |d| < WORD && IsZip(d) && Passes(d)
    ensures Unwrapped(d).Blob? <==> DataOffset(d) + CompressedSize(d) < WORD
    ensures !Unwrapped(d).Refused?
  {
    hide DataOffset, CompressedSize;
  }

  /** memmove towards the front of the same buffer. */
  method MoveDown(buf: array<byte>, from: nat, n: nat)
    requires from + n <= buf.Length
    modifies buf
    ensures buf[..n] == old(buf[from..from + n])
    ensures buf[n..] == old(buf[n..])
  {
    for i := 0 to n
      invariant forall k :: 0 <= k < i ==> buf[k] == old(buf[from + k])
      invariant forall k :: i <= k < buf.Length ==> buf[k] == old(buf[k])
    {
      buf[i] := buf[from + i];
    }
  }

  lemma SliceOfPrefix(s: seq<byte>, n: nat, i: nat, j: nat)
    requires i <= j <= n <= |s|
    ensures s[..n][i..j] == s[i..j]
  {
  }

  /** Method, size and data offset of a local file header, read octet by octet. */
  method HeaderFields(buf: array<byte>, got: u32) returns (compression: u16, csize: u32, dataOff: nat)
    requires 34 <= got <= buf.Length
    ensures compression == Compression(buf[..got]) && csize == CompressedSize(buf[..got])
    ensures dataOff == DataOffset(buf[..got])
  {
    compression := FromLe16([buf[8], buf[9]]);
    csize := FromLe32([buf[18], buf[19], buf[20], buf[21]]);
    var nlen: nat, xlen: nat := FromLe16([buf[26], buf[27]]), FromLe16([buf[28], buf[29]]);
    dataOff := 30 + nlen + xlen;
  }

  datatype Outcome = Unzipped(size: nat) | NotStored | Overrun

  /**
   Unwraps buf[..got] in place; the first `size` octets are then the model blob.  What a move from behind the
   download leaves in the buffer is not modelled: the method stops before it.
   */
  method UnwrapInPlace(buf: array<byte>, got: u32) returns (outcome: Outcome)
    requires got <= buf.Length
    modifies buf
    ensures outcome.Unzipped? ==>
      && outcome.size <= buf.Length
      && Unwrapped(old(buf[..got])) == Blob(buf[..outcome.size])
      && buf[outcome.size..] == old(buf[outcome.size..])
    ensures outcome.NotStored? <==> NoStoredEntry(old(buf[..got]))
    ensures outcome.NotStored? <==> Unwrapped(old(buf[..got])) == Refused
    ensures outcome.Overrun? ==> Unwrapped(old(buf[..got])) == PastEnd
    ensures !outcome.Unzipped? ==> buf[..] == old(buf[..])
  {
    hide NoStoredEntry, Compression, CompressedSize, DataOffset;
    ghost var d := buf[..got];
    RefusedIff(d);
    if got >= 34 && buf[..4] == PK34 {
      assert d[..4] == buf[..4];
      var compression, csize, dataOff := HeaderFields(buf, got);
      if compression != 0 || csize == 0 || (dataOff + csize) % WORD > got {
        return NotStored;
      }
      if dataOff + csize > got {
        return Overrun;
      }
      SliceOfPrefix(buf[..], got, dataOff, dataOff + csize);
      MoveDown(buf, dataOff, csize);
      return Unzipped(csize);
    }
    if got >= 34 {
      assert d[..4] == buf[..4];
    }
    return Unzipped(got);
  }

  // ---------------------------------------------------------------- the pipeline

  lemma FieldsOfEntry(h: LocalHeader, rest: seq<byte>)
    requires HeaderOk(h) && |rest| >= 4
    ensures var d := Fixed(h) + rest;
      && d[..4] == PK34
      && Compression(d) == h.compression
      && CompressedSize(d) == h.compressedSize
      && DataOffset(d) == 30 + |h.name| + |h.extra|
  {
    Le16RoundTrip(h.compression);
    Le32RoundTrip(h.compressedSize);
    Le16RoundTrip(|h.name|);
    Le16RoundTrip(|h.extra|);
  }

  /** In terms of the header's fields: only a STORED entry that lies within the download is not refused. */
  lemma EntryRefusedIff(h: LocalHeader, data: seq<byte>, trailer: seq<byte>)
    requires HeaderOk(h) && 34 <= |FileEntry(h, data) + trailer|
    ensures var d := FileEntry(h, data) + trailer;
      Unwrapped(d) == Refused <==>
        || h.compression != 0
        || h.compressedSize == 0
        || (30 + |h.name| + |h.extra| + h.compressedSize) % 0x1_0000_0000 > |d|
  {
    hide Fixed, Compression, CompressedSize, DataOffset;
    var rest := h.name + h.extra + data + trailer;
    assert FileEntry(h, data) + trailer == Fixed(h) + rest;
    FieldsOfEntry(h, rest);
  }

  /** Whatever the entry's name, extra field and trailing directory, its data come out. */
  lemma UnwrapRecovers(h: LocalHeader, data: seq<byte>, trailer: seq<byte>)
    requires StoredEntry(h, data) && 4 <= |h.name| + |h.extra| + |data|
    requires |FileEntry(h, data) + trailer| < WORD
    ensures Unwrapped(FileEntry(h, data) + trailer) == Blob(data)
  {
    hide Fixed, Compression, CompressedSize, DataOffset;
    var rest := h.name + h.extra + data + trailer;
    var d := FileEntry(h, data) + trailer;
    assert d == Fixed(h) + rest;
    FieldsOfEntry(h, rest);
    var off := 30 + |h.name| + |h.extra|;
    assert d[off..off + |data|] == data;
  }

  /** A header that passes the test although its entry lies behind the download. */
  lemma WrappedSumPasses()
    ensures var d := FileEntry(LocalHeader(20, 0, 0, 0, 0, 0, WORD - 30, 0, [], []), [0, 0, 0, 0]);
      IsZip(d) && Passes(d) && Unwrapped(d) == PastEnd
  {
    hide Fixed, Compression, CompressedSize, DataOffset;
    var h := LocalHeader(20, 0, 0, 0, 0, 0, WORD - 30, 0, [], []);
    FieldsOfEntry(h, [0, 0, 0, 0]);
    assert FileEntry(h, [0, 0, 0, 0]) == Fixed(h) + [0, 0, 0, 0];
  }

  /** A blob that was not zipped is passed through. */
  lemma BlobPassesThrough(payload: seq<byte>, modelVer: u16, name: string)
    requires BuildIotv(payload, modelVer, name).Packed?
    ensures var blob := BuildIotv(payload, modelVer, name).blob; Unwrapped(blob) == Blob(blob)
  {
    hide Crc32, BuildIotv, Passes;
    BuildIsEnvelope(payload, modelVer, name);
    assert BuildIotv(payload, modelVer, name).blob[..4] == MAGIC;
  }

  /** How a packed blob is served: as it is, or as the one STORED entry of an archive. */
  datatype Serving = Plain | Zipped(header: LocalHeader, trailer: seq<byte>)

  ghost predicate Served(how: Serving, blob: seq<byte>, download: seq<byte>) {
    match how
    case Plain => download == blob
    case Zipped(h, trailer) => StoredEntry(h, blob) && download == FileEntry(h, blob) + trailer
  }

  /**
   From the packer to the device: a packed model downloaded into the staging buffer, zipped or not, is
   recovered in place and accepted by the validator exactly up to the firmware's own cap.
   */
  method ReceivePacked(buf: array<byte>, got: u32, ghost how: Serving,
                       ghost payload: seq<byte>, ghost modelVer: u16, ghost name: string)
    returns (size: nat, reason: Option<Reason>)
    requires got <= buf.Length
    requires BuildIotv(payload, modelVer, name).Packed?
    requires Served(how, BuildIotv(payload, modelVer, name).blob, buf[..got])
    modifies buf
    ensures size <= buf.Length && buf[..size] == BuildIotv(payload, modelVer, name).blob
    ensures reason == None <==> |payload| <= MODEL_MAX_BLOB - HDR_LEN
  {
    hide Crc32, BuildIotv, Unwrapped, FileEntry, Validate, Header, Passes;
    ghost var blob := BuildIotv(payload, modelVer, name).blob;
    FirmwareAcceptsPacked(payload, modelVer, name, []);
    match how {
      case Plain =>
        BlobPassesThrough(payload, modelVer, name);
      case Zipped(h, trailer) =>
        UnwrapRecovers(h, blob, trailer);
    }
    var outcome := UnwrapInPlace(buf, got);
    size := outcome.size;
    assert buf[..] == buf[..size] + buf[size..];
    FirmwareAcceptsPacked(payload, modelVer, name, buf[size..]);
    reason := Validate(buf[..], size);
  }
}
