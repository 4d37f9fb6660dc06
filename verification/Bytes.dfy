/** Octets, 32-bit words and the byte orders the firmware uses for them. */
module Bytes {
  type byte = b: int | 0 <= b < 256

  const WORD := 0x1_0000_0000

  type u32 = w: int | 0 <= w < 0x1_0000_0000
  type u16 = h: int | 0 <= h < 0x1_0000

  /** The characters of an 8-bit text as octets. */
  function Octets(text: string): (s: seq<byte>)
    ensures |s| == |text|
  {
    seq(|text|, i requires 0 <= i < |text| => text[i] as int % 256)
  }

  /** Big-endian layout of a 32-bit word (PNG, network order). */
  function Be32(v: u32): (s: seq<byte>)
    ensures |s| == 4
  {
    [v / 0x100_0000, v / 0x1_0000 % 256, v / 256 % 256, v % 256]
  }

  function FromBe32(s: seq<byte>): u32
    requires |s| >= 4
  {
    var (a: int, b: int, c: int, d: int) := (s[0], s[1], s[2], s[3]);
    a * 0x100_0000 + b * 0x1_0000 + c * 256 + d
  }

  /** Little-endian layouts (the packed IOTV header and the zip local header). */
  function Le16(v: u16): (s: seq<byte>)
    ensures |s| == 2
  {
    [v % 256, v / 256]
  }

  function FromLe16(s: seq<byte>): u16
    requires |s| >= 2
  {
    var (a: int, b: int) := (s[0], s[1]);
    a + b * 256
  }

  function Le32(v: u32): (s: seq<byte>)
    ensures |s| == 4
  {
    [v % 256, v / 256 % 256, v / 0x1_0000 % 256, v / 0x100_0000]
  }

  function FromLe32(s: seq<byte>): u32
    requires |s| >= 4
  {
    var (a: int, b: int, c: int, d: int) := (s[0], s[1], s[2], s[3]);
    a + b * 256 + c * 0x1_0000 + d * 0x100_0000
  }

  lemma Digits(v: nat)
    ensures v / 0x100_0000 * 0x100_0000 + v / 0x1_0000 % 256 * 0x1_0000 + v / 256 % 256 * 256 + v % 256 == v
  {
    assert v / 0x1_0000 == v / 256 / 256;
    assert v / 0x100_0000 == v / 0x1_0000 / 256;
  }

  lemma Be32RoundTrip(v: u32)
    ensures FromBe32(Be32(v)) == v
  {
    Digits(v);
  }

  lemma Le32RoundTrip(v: u32)
    ensures FromLe32(Le32(v)) == v
  {
    Digits(v);
  }

  lemma Le16RoundTrip(v: u16)
    ensures FromLe16(Le16(v)) == v
  {
  }

  /** What the layouts mean: the weights of the octets, the first being the heaviest or the lightest. */
  lemma Weights(v: u32, u: u16)
    ensures var s := Be32(v); var (a: int, b: int, c: int, d: int) := (s[0], s[1], s[2], s[3]);
      v == 0x100_0000 * a + 0x1_0000 * b + 0x100 * c + d
    ensures var s := Le32(v); var (a: int, b: int, c: int, d: int) := (s[0], s[1], s[2], s[3]);
      v == a + 0x100 * b + 0x1_0000 * c + 0x100_0000 * d
    ensures var s := Le16(u); var (a: int, b: int) := (s[0], s[1]); u == a + 0x100 * b
  {
    Digits(v);
  }
}
