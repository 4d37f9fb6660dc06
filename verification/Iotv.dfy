/**
 The IOTV model envelope: the packer's `build_iotv`, the firmware's `iotv_wrap_in_place` and
 `iotv_validate`, and what each makes of the other's output.
 */
module Iotv {
  import opened Bytes
  import opened Wrappers
  import opened Crc

  const HDR_LEN := 32
  const NAME_LEN := 16
  const FMT_VER: u16 := 1
  const MODEL_MAX_BLOB := 4 * 1024 * 1024        // firmware
  const MODEL_MAX := 8 * 1024 * 1024 - HDR_LEN   // packer

  const MAGIC: seq<byte> := [73, 79, 84, 86] // IOTV
  const TFL3: seq<byte> := [84, 70, 76, 51]

  // ---------------------------------------------------------------- validation

  datatype Reason = ShortBlob | BadMagic | FormatVersion | Length | NotFlatbuffer | CrcMismatch

  function ModelLen(buf: seq<byte>): u32
    requires |buf| >= 12
  {
    FromLe32(buf[8..])
  }

  function StoredCrc(buf: seq<byte>): u32
    requires |buf| >= 16
  {
    FromLe32(buf[12..])
  }

  /** `iotv_validate`: None for a well-formed blob.  The buffer may hold more than the `len` octets claimed. */
  function Validate(buf: seq<byte>, len: nat): Option<Reason>
    requires 40 <= |buf| && len <= |buf|
  {
    if len < HDR_LEN then Some(ShortBlob)
    else if buf[..4] != MAGIC then Some(BadMagic)
    else if FromLe16(buf[4..]) != FMT_VER then Some(FormatVersion)
    else if ModelLen(buf) > MODEL_MAX_BLOB - HDR_LEN || ModelLen(buf) + HDR_LEN > len then Some(Length)
    else if buf[HDR_LEN + 4..HDR_LEN + 8] != TFL3 then Some(NotFlatbuffer)
    else if Crc32(buf[HDR_LEN..HDR_LEN + ModelLen(buf)]) != StoredCrc(buf) then Some(CrcMismatch)
    else None
  }

  /** The envelope of a payload, field by field. */
  function Header(modelVer: u16, payload: seq<byte>, name: seq<byte>): (h: seq<byte>)
    requires |name| == NAME_LEN && |payload| < WORD
    ensures |h| == HDR_LEN
  {
    MAGIC + Le16(FMT_VER) + Le16(modelVer) + Le32(|payload|) + Le32(Crc32(payload)) + name
  }

  function Envelope(modelVer: u16, payload: seq<byte>, name: seq<byte>): seq<byte>
    requires |name| == NAME_LEN && |payload| < WORD
  {
    Header(modelVer, payload, name) + payload
  }

  lemma Le16Inverse(s: seq<byte>)
    requires |s| == 2
    ensures Le16(FromLe16(s)) == s
  {
  }

  lemma LowDigit(a: nat, w: nat)
    requires a < 256
    ensures (a + 256 * w) % 256 == a && (a + 256 * w) / 256 == w
  {
  }

  lemma Le32Inverse(s: seq<byte>)
    requires |s| == 4
    ensures Le32(FromLe32(s)) == s
  {
    var a: int, b: int, c: int, d: int := s[0], s[1], s[2], s[3];
    var v := a + b * 256 + c * 0x1_0000 + d * 0x100_0000;
    var w := b + c * 256 + d * 0x1_0000;
    var x := c + d * 256;
    LowDigit(a, w);
    LowDigit(b, x);
    LowDigit(c, d);
    assert v == a + 256 * w && w == b + 256 * x;
    assert v / 0x1_0000 == v / 256 / 256 == x && v / 0x100_0000 == v / 0x1_0000 / 256 == d;
  }

  /** The octets of a header in their places. */
  lemma HeaderOctets(modelVer: u16, payload: seq<byte>, name: seq<byte>)
    requires |name| == NAME_LEN && |payload| < WORD
    ensures var h := Header(modelVer, payload, name);
      && |h| == 32
      && h[..6] == [73, 79, 84, 86, 1, 0]
      && h[6..8] == Le16(modelVer)
      && h[8..12] == Le32(|payload|)
      && h[12..16] == Le32(Crc32(payload))
      && h[16..] == name
  {
    hide Crc32, Le32;
    assert Le16(1) == [1, 0];
  }

  lemma FieldsOfHeader(modelVer: u16, payload: seq<byte>, name: seq<byte>, rest: seq<byte>)
    requires |name| == NAME_LEN && |payload| < WORD
    ensures var b := Header(modelVer, payload, name) + rest;
      && b[..4] == MAGIC
      && FromLe16(b[4..]) == FMT_VER
      && ModelLen(b) == |payload|
      && StoredCrc(b) == Crc32(payload)
  {
    hide Crc32;
    Le16RoundTrip(FMT_VER);
    Le32RoundTrip(|payload|);
    Le32RoundTrip(Crc32(payload));
  }

  /** What the envelope of a payload is validated as, whatever follows it in the buffer. */
  lemma ValidateEnvelope(modelVer: u16, payload: seq<byte>, name: seq<byte>, rest: seq<byte>)
    requires |name| == NAME_LEN && 8 <= |payload| < WORD
    requires payload[4..8] == TFL3
    ensures Validate(Envelope(modelVer, payload, name) + rest, HDR_LEN + |payload|)
         == if |payload| <= MODEL_MAX_BLOB - HDR_LEN then None else Some(Length)
  {
    hide Header, Crc32, FromLe16, ModelLen, StoredCrc;
    var h := Header(modelVer, payload, name);
    var b := Envelope(modelVer, payload, name) + rest;
    assert b == h + (payload + rest);
    FieldsOfHeader(modelVer, payload, name, payload + rest);
    assert b[HDR_LEN..HDR_LEN + |payload|] == payload;
    assert b[HDR_LEN + 4..HDR_LEN + 8] == payload[4..8];
  }

  lemma FirstTwo(s: seq<byte>)
    requires |s| >= 2
    ensures Le16(FromLe16(s)) == s[..2]
  {
    Le16Inverse(s[..2]);
  }

  lemma FirstFour(s: seq<byte>)
    requires |s| >= 4
    ensures Le32(FromLe32(s)) == s[..4]
  {
    Le32Inverse(s[..4]);
  }

  /** The fields a blob claims, put back together. */
  lemma HeaderOfFields(buf: seq<byte>, payload: seq<byte>)
    requires 40 <= |buf| && |payload| < WORD
    requires buf[..4] == MAGIC && FromLe16(buf[4..]) == FMT_VER
    requires ModelLen(buf) == |payload| && StoredCrc(buf) == Crc32(payload)
    ensures buf[..HDR_LEN] == Header(FromLe16(buf[6..]), payload, buf[16..HDR_LEN])
  {
    hide Crc32, Le16, Le32, FromLe16, FromLe32;
    FirstTwo(buf[4..]);
    FirstTwo(buf[6..]);
    FirstFour(buf[8..]);
    FirstFour(buf[12..]);
    assert buf[4..][..2] == buf[4..6] && buf[6..][..2] == buf[6..8];
    assert buf[8..][..4] == buf[8..12] && buf[12..][..4] == buf[12..16];
    assert buf[..HDR_LEN] == buf[..4] + buf[4..6] + buf[6..8] + buf[8..12] + buf[12..16] + buf[16..HDR_LEN];
  }

  /** When each reason is given. */
  lemma ReasonIff(buf: seq<byte>, len: nat)
    requires 40 <= |buf| && len <= |buf|
    ensures var r := Validate(buf, len);
      var marked := 32 <= len && buf[..4] == [73, 79, 84, 86];
      var known := marked && buf[4] == 1 && buf[5] == 0;
      var n := FromLe32(buf[8..]);
      var fits := known && n <= 4_194_272 && 32 + n <= len;
      var model := fits && buf[36..40] == [84, 70, 76, 51];
      && (r == Some(ShortBlob) <==> len < 32)
      && (r == Some(BadMagic) <==> 32 <= len && !marked)
      && (r == Some(FormatVersion) <==> marked && !known)
      && (r == Some(Length) <==> known && !fits)
      && (r == Some(NotFlatbuffer) <==> fits && !model)
      && (r == Some(CrcMismatch) <==> model && Crc32(buf[32..32 + n]) != FromLe32(buf[12..]))
      && (r == None <==> model && Crc32(buf[32..32 + n]) == FromLe32(buf[12..]))
  {
    hide Crc32, FromLe32;
    assert FromLe16(buf[4..]) == 1 <==> buf[4] == 1 && buf[5] == 0;
  }

  ghost predicate EnvelopeOf(buf: seq<byte>, len: nat, ver: u16, payload: seq<byte>, name: seq<byte>)
    requires 40 <= |buf| && len <= |buf|
  {
    && |name| == NAME_LEN
    && HDR_LEN + |payload| <= len
    && HDR_LEN + |payload| <= MODEL_MAX_BLOB
    && buf[..HDR_LEN + |payload|] == Envelope(ver, payload, name)
    && buf[HDR_LEN + 4..HDR_LEN + 8] == TFL3
  }

  ghost predicate IsEnvelope(buf: seq<byte>, len: nat)
    requires 40 <= |buf| && len <= |buf|
  {
    exists ver, payload, name :: EnvelopeOf(buf, len, ver, payload, name)
  }

  /** A blob is accepted exactly when it starts with the envelope of a payload that fits. */
  lemma ValidIffEnvelope(buf: seq<byte>, len: nat)
    requires 40 <= |buf| && len <= |buf|
    ensures Validate(buf, len) == None <==> IsEnvelope(buf, len)
  {
    hide Crc32, Header, ModelLen, StoredCrc, FromLe16;
    if Validate(buf, len) == None {
      var payload := buf[HDR_LEN..HDR_LEN + ModelLen(buf)];
      HeaderOfFields(buf, payload);
      var ver, name := FromLe16(buf[6..]), buf[16..HDR_LEN];
      assert buf[..HDR_LEN + |payload|] == buf[..HDR_LEN] + payload;
      assert EnvelopeOf(buf, len, ver, payload, name);
    }
    if IsEnvelope(buf, len) {
      var ver, payload, name :| EnvelopeOf(buf, len, ver, payload, name);
      var h := Header(ver, payload, name);
      assert buf == buf[..HDR_LEN + |payload|] + buf[HDR_LEN + |payload|..];
      assert buf == h + buf[HDR_LEN..];
      FieldsOfHeader(ver, payload, name, buf[HDR_LEN..]);
      assert buf[HDR_LEN..HDR_LEN + |payload|] == payload;
    }
  }

  lemma SameFields(a: seq<byte>, b: seq<byte>)
    requires |a| >= HDR_LEN && |b| >= HDR_LEN && a[..HDR_LEN] == b[..HDR_LEN]
    ensures a[..4] == b[..4] && FromLe16(a[4..]) == FromLe16(b[4..])
    ensures ModelLen(a) == ModelLen(b) && StoredCrc(a) == StoredCrc(b)
  {
    assert forall i :: 0 <= i < HDR_LEN ==> a[i] == a[..HDR_LEN][i] == b[i];
  }

  /**
   A valid blob whose payload was altered only inside four consecutive octets is no longer valid.
   */
  lemma AlteredPayloadRejected(buf: seq<byte>, altered: seq<byte>, len: nat, at: nat)
    requires 40 <= |buf| == |altered| && len <= |buf|
    requires Validate(buf, len) == None
    requires altered[..HDR_LEN] == buf[..HDR_LEN]
    requires var n := HDR_LEN + ModelLen(buf);
      altered[HDR_LEN..n] != buf[HDR_LEN..n] && DifferOnlyInWindow(buf[HDR_LEN..n], altered[HDR_LEN..n], at)
    ensures Validate(altered, len) == Some(NotFlatbuffer) || Validate(altered, len) == Some(CrcMismatch)
  {
    hide Crc32, DifferOnlyInWindow;
    var n := HDR_LEN + ModelLen(buf);
    assert altered[..4] == altered[..HDR_LEN][..4] == buf[..4];
    SameFields(buf, altered);
    BurstDetected(buf[HDR_LEN..n], altered[HDR_LEN..n], at);
  }

  // ---------------------------------------------------------------- wrapping in place

  /** What precedes the first NUL. */
  function CString(s: seq<byte>): seq<byte> {
    if s == [] || s[0] == 0 then [] else [s[0]] + CString(s[1..])
  }

  function Zeros(n: nat): seq<byte> {
    seq(n, _ => 0)
  }

  /** At most 15 octets, padded with NULs to 16. */
  function NameField(name: seq<byte>): (f: seq<byte>)
    ensures |f| == NAME_LEN
  {
    if |name| >= NAME_LEN then name[..NAME_LEN - 1] + Zeros(1) else name + Zeros(NAME_LEN - |name|)
  }

  method PutAt(buf: array<byte>, at: nat, data: seq<byte>)
    requires at + |data| <= buf.Length
    modifies buf
    ensures buf[..at + |data|] == old(buf[..at]) + data
    ensures buf[at + |data|..] == old(buf[at + |data|..])
  {
    forall i | 0 <= i < |data| {
      buf[at + i] := data[i];
    }
    assert buf[..at + |data|] == buf[..at] + buf[at..at + |data|];
  }

  /** What lies behind a written field lies there still, seen from further on. */
  lemma TailOf(s: seq<byte>, from: nat, to: nat, end: nat)
    requires from <= to <= end <= |s|
    ensures s[from..][to - from..] == s[to..]
    ensures s[from..][to - from..end - from] == s[to..end]
  {
  }

  /** `iotv_wrap_in_place`: a header in front of the payload already at offset 32. */
  method WrapInPlace(buf: array<byte>, payloadLen: nat, modelVer: u16, name: seq<byte>)
    requires HDR_LEN + payloadLen <= buf.Length && payloadLen < WORD
    modifies buf
    ensures buf[..HDR_LEN]
         == Header(modelVer, old(buf[HDR_LEN..HDR_LEN + payloadLen]), NameField(CString(name)))
    ensures buf[HDR_LEN..] == old(buf[HDR_LEN..])
  {
    hide Crc32, Le16, Le32, NameField;
    var end := HDR_LEN + payloadLen;
    ghost var payload := buf[HDR_LEN..end];
    TailOf(buf[..], 4, 12, buf.Length);
    TailOf(buf[..], 6, 12, buf.Length);
    PutAt(buf, 0, MAGIC);
    PutAt(buf, 4, Le16(FMT_VER));
    TailOf(buf[..], 6, 12, buf.Length);
    PutAt(buf, 6, Le16(modelVer));
    TailOf(buf[..], 8, 12, buf.Length);
    PutAt(buf, 8, Le32(payloadLen));
    assert buf[..12] == MAGIC + Le16(FMT_VER) + Le16(modelVer) + Le32(payloadLen);
    assert buf[12..] == old(buf[12..]);
    TailOf(buf[..], 12, HDR_LEN, end);
    TailOf(old(buf[..]), 12, HDR_LEN, end);
    assert buf[HDR_LEN..] == old(buf[HDR_LEN..]) && buf[HDR_LEN..end] == payload;
    var crc := IotvCrc32(buf, HDR_LEN, payloadLen);
    PutAt(buf, 12, Le32(crc));
    PutAt(buf, 16, NameField(CString(name)));
  }

  // ---------------------------------------------------------------- the packer

  datatype PackResult = Packed(blob: seq<byte>) | TooLarge | NotTflite

  /** `str.encode("ascii", errors="replace")` */
  function Ascii(name: string): seq<byte> {
    seq(|name|, i requires 0 <= i < |name| => if name[i] as int < 128 then name[i] as int else 63)
  }

  /** Python's payload[4:8] */
  function Slice48(payload: seq<byte>): seq<byte> {
    if |payload| <= 4 then [] else if |payload| <= 8 then payload[4..] else payload[4..8]
  }

  function BuildIotv(payload: seq<byte>, modelVer: u16, name: string): PackResult {
    if |payload| > MODEL_MAX then TooLarge
    else if Slice48(payload) != TFL3 then NotTflite
    else
      var ascii := Ascii(name);
      var short := if |ascii| < NAME_LEN then ascii else ascii[..NAME_LEN - 1];
      var padded := short + Zeros(NAME_LEN - |short|);
      Packed(MAGIC + Le16(FMT_VER) + Le16(modelVer) + Le32(|payload|) + Le32(Crc32(payload)) + padded + payload)
  }

  /** When the packer refuses, and what it writes for characters that are not ASCII. */
  lemma PackerRefusesIff(payload: seq<byte>, modelVer: u16, name: string)
    ensures var r := BuildIotv(payload, modelVer, name);
      var model := 8 <= |payload| && payload[4..8] == [84, 70, 76, 51];
      && (r == TooLarge <==> |payload| > 8_388_576)
      && (r == NotTflite <==> |payload| <= 8_388_576 && !model)
    ensures |Ascii(name)| == |name|
    ensures forall i :: 0 <= i < |name| ==>
      Ascii(name)[i] == if name[i] < 128 as char then name[i] as int else '?' as int
  {
    hide Crc32;
  }

  lemma BuildIsEnvelope(payload: seq<byte>, modelVer: u16, name: string)
    requires BuildIotv(payload, modelVer, name).Packed?
    ensures 8 <= |payload| <= 8_388_576 && payload[4..8] == TFL3
    ensures BuildIotv(payload, modelVer, name).blob == Envelope(modelVer, payload, NameField(Ascii(name)))
  {
    hide Crc32;
  }

  /** The firmware accepts what the packer builds exactly up to the firmware's own, smaller cap. */
  lemma FirmwareAcceptsPacked(payload: seq<byte>, modelVer: u16, name: string, rest: seq<byte>)
    requires BuildIotv(payload, modelVer, name).Packed?
    ensures var blob := BuildIotv(payload, modelVer, name).blob;
      && 40 <= |blob|
      && (Validate(blob + rest, |blob|) == None <==> |payload| <= 4_194_272)
  {
    hide BuildIotv, Crc32, Header, Validate;
    BuildIsEnvelope(payload, modelVer, name);
    ValidateEnvelope(modelVer, payload, NameField(Ascii(name)), rest);
  }

  ghost predicate NulOnlyAtEnd(s: seq<byte>, n: nat) {
    forall i, j :: 0 <= i < j < |s| && j < n && s[i] == 0 ==> s[j] == 0
  }

  lemma {:induction false} CStringShape(s: seq<byte>)
    ensures var c := CString(s);
      && |c| <= |s| && c == s[..|c|]
      && (forall i :: 0 <= i < |c| ==> s[i] != 0)
      && (|c| < |s| ==> s[|c|] == 0)
  {
    if s != [] && s[0] != 0 {
      CStringShape(s[1..]);
    }
  }

  lemma NameFieldAt(s: seq<byte>, i: nat)
    requires i < NAME_LEN
    ensures NameField(s)[i] == if i < |s| && i < NAME_LEN - 1 then s[i] else 0
  {
  }

  /**
   The packer and the firmware write the same name field exactly when no other octet follows a NUL
   within the 15 octets kept.
   */
  lemma NameFieldsAgree(s: seq<byte>)
    ensures NameField(s) == NameField(CString(s)) <==> NulOnlyAtEnd(s, NAME_LEN - 1)
  {
    hide NameField;
    CStringShape(s);
    var c := CString(s);
    if NameField(s) == NameField(c) {
      forall i, j | 0 <= i < j < |s| && j < NAME_LEN - 1 && s[i] == 0 ensures s[j] == 0 {
        NameFieldAt(s, j);
        NameFieldAt(c, j);
      }
    }
    if NulOnlyAtEnd(s, NAME_LEN - 1) {
      forall i | 0 <= i < NAME_LEN ensures NameField(s)[i] == NameField(c)[i] {
        NameFieldAt(s, i);
        NameFieldAt(c, i);
      }
      assert NameField(s) == NameField(c);
    }
  }

  lemma NoNul(s: seq<byte>)
    requires forall i :: 0 <= i < |s| ==> s[i] != 0
    ensures CString(s) == s
  {
    CStringShape(s);
  }

  /** For a name of ASCII characters other than NUL the two sides build the same blob. */
  lemma PackerAndFirmwareAgree(payload: seq<byte>, modelVer: u16, name: string)
    requires BuildIotv(payload, modelVer, name).Packed?
    requires forall i :: 0 <= i < |name| ==> 0 < name[i] as int < 128
    ensures BuildIotv(payload, modelVer, name).blob
         == Header(modelVer, payload, NameField(CString(Ascii(name)))) + payload
  {
    hide Crc32, Header, BuildIotv;
    BuildIsEnvelope(payload, modelVer, name);
    NoNul(Ascii(name));
  }
}
