/**
 The two CRC-32 implementations in the firmware: the bit-serial one of the model store, which the
 PNG encoder shares, and the nibble-table one of LittleFS.  They are proved to be the same function,
 and that function is proved to detect every error confined to four consecutive octets.

 Facts about the bit patterns themselves are small lemmas; the lemmas that chain them `hide` the
 bit-level definitions.
 */
module Crc {
  import opened Bytes

  const POLY: bv32 := 0xEDB88320

  /** Eight bits, most significant first, as the low end of a register. */
  function Pack(b7: bool, b6: bool, b5: bool, b4: bool, b3: bool, b2: bool, b1: bool, b0: bool): bv32 {
    (if b7 then 0x80 else 0) | (if b6 then 0x40 else 0) | (if b5 then 0x20 else 0) | (if b4 then 0x10 else 0)
    | (if b3 then 0x08 else 0) | (if b2 then 0x04 else 0) | (if b1 then 0x02 else 0) | (if b0 then 0x01 else 0)
  }

  function Digit(b: byte, place: nat): int
    requires place > 0
  {
    b / place % 2
  }

  /** An octet as the low end of a CRC register, by its binary digits. */
  function Reg(b: byte): bv32 {
    Pack(Digit(b, 128) == 1, Digit(b, 64) == 1, Digit(b, 32) == 1, Digit(b, 16) == 1,
         Digit(b, 8) == 1, Digit(b, 4) == 1, Digit(b, 2) == 1, Digit(b, 1) == 1)
  }

  /** A number with one more binary digit. */
  function More(n: nat, b: bool): nat {
    2 * n + (if b then 1 else 0)
  }

  /** Eight binary digits as a number. */
  function Binary(b7: bool, b6: bool, b5: bool, b4: bool, b3: bool, b2: bool, b1: bool, b0: bool): byte {
    More(More(More(More(More(More(More(More(0, b7), b6), b5), b4), b3), b2), b1), b0)
  }

  predicate Bit(x: bv32, mask: bv32) {
    x & mask != 0
  }

  /** The low end of a register as an octet. */
  function Octet(x: bv32): byte {
    Binary(Bit(x, 0x80), Bit(x, 0x40), Bit(x, 0x20), Bit(x, 0x10),
           Bit(x, 0x08), Bit(x, 0x04), Bit(x, 0x02), Bit(x, 0x01))
  }

  /** A register without its low octet. */
  function Drop(x: bv32): bv32 {
    x >> 8
  }

  function Low(x: bv32): bv32 {
    x & 0xFF
  }

  /** A register as a number. */
  function Number(x: bv32): u32 {
    Octet(x) + 0x100 * Octet(Drop(x)) + 0x1_0000 * Octet(Drop(Drop(x))) + 0x100_0000 * Octet(Drop(Drop(Drop(x))))
  }

  function Xor(x: bv32, y: bv32): bv32 {
    x ^ y
  }

  function Complement(x: bv32): bv32 {
    !x
  }

  // ---------------------------------------------------------------- bit-serial form

  /** One shift of the register, with the mask written as the source writes it. */
  function Shift(crc: bv32): bv32 {
    (crc >> 1) ^ (POLY & (0 - (crc & 1)))
  }

  function Shifts(n: nat, crc: bv32): bv32 {
    if n == 0 then crc else Shift(Shifts(n - 1, crc))
  }

  /** The register after one more octet. */
  function Feed(crc: bv32, b: byte): bv32 {
    Shifts(8, Xor(crc, Reg(b)))
  }

  /** The register after a whole string of octets. */
  function Register(crc: bv32, data: seq<byte>): bv32 {
    if data == [] then crc else Feed(Register(crc, data[..|data| - 1]), data[|data| - 1])
  }

  function Crc32(data: seq<byte>): u32 {
    Number(Complement(Register(0xFFFFFFFF, data)))
  }

  method IotvCrc32(buf: array<byte>, start: nat, len: nat) returns (result: u32)
    requires start + len <= buf.Length
    ensures result == Crc32(buf[start..start + len])
  {
    hide Shift, Xor, Reg, Complement;
    var crc: bv32 := 0xFFFFFFFF;
    for i := 0 to len
      invariant crc == Register(0xFFFFFFFF, buf[start..start + i])
    {
      ghost var before := crc;
      crc := Xor(crc, Reg(buf[start + i]));
      ghost var mixed := crc;
      for b := 0 to 8
        invariant crc == Shifts(b, mixed)
      {
        crc := Shift(crc);
      }
      assert buf[start..start + i + 1][..i] == buf[start..start + i];
      assert crc == Feed(before, buf[start + i]);
    }
    result := Number(Complement(crc));
  }

  // ---------------------------------------------------------------- table form

  const RTABLE: seq<bv32> := [
    0x00000000, 0x1db71064, 0x3b6e20c8, 0x26d930ac,
    0x76dc4190, 0x6b6b51f4, 0x4db26158, 0x5005713c,
    0xedb88320, 0xf00f9344, 0xd6d6a3e8, 0xcb61b38c,
    0x9b64c2b0, 0x86d3d2d4, 0xa00ae278, 0xbdbdf21c
  ]

  function Entry(x: bv32): bv32 {
    RTABLE[(x & 0xf) as int]
  }

  function High(x: bv32): bv32 {
    x >> 4
  }

  /** The register after the low four bits of `data`. */
  function Nibble(crc: bv32, data: bv32): bv32 {
    Xor(High(crc), Entry(Xor(crc, data)))
  }

  function LfsFeed(crc: bv32, b: byte): bv32 {
    Nibble(Nibble(crc, Reg(b)), High(Reg(b)))
  }

  /** The value `lfs_crc` returns. */
  function LfsCrc(crc: bv32, data: seq<byte>): bv32 {
    if data == [] then crc else LfsFeed(LfsCrc(crc, data[..|data| - 1]), data[|data| - 1])
  }

  // ---------------------------------------------------------------- the table form refines the bit-serial form

  lemma FourShifts(x: bv32)
    ensures Shifts(4, x) == Shift(Shift(Shift(Shift(x))))
  {
    hide Shift;
    assert Shifts(1, x) == Shift(x);
    assert Shifts(2, x) == Shift(Shift(x));
    assert Shifts(3, x) == Shift(Shift(Shift(x)));
  }

  lemma EightShifts(x: bv32)
    ensures Shifts(8, x) == Shifts(4, Shifts(4, x))
  {
    hide Shift;
    var y := Shifts(4, x);
    assert Shifts(5, x) == Shift(y);
    assert Shifts(6, x) == Shift(Shift(y));
    assert Shifts(7, x) == Shift(Shift(Shift(y)));
    FourShifts(y);
  }

  // Xor is an abelian group operation, and a shift is linear in it.

  lemma XorNil(x: bv32)
    ensures Xor(x, 0) == x
    ensures Xor(0, x) == x
  {
  }

  lemma XorAssoc(x: bv32, y: bv32, z: bv32)
    ensures Xor(Xor(x, y), z) == Xor(x, Xor(y, z))
  {
  }

  lemma XorComm(x: bv32, y: bv32)
    ensures Xor(x, y) == Xor(y, x)
  {
  }

  lemma XorPairs(a: bv32, b: bv32, c: bv32, d: bv32)
    ensures Xor(Xor(a, b), Xor(c, d)) == Xor(Xor(a, c), Xor(b, d))
  {
    hide Xor;
    XorAssoc(a, b, Xor(c, d));
    XorAssoc(b, c, d);
    XorComm(b, c);
    XorAssoc(c, b, d);
    XorAssoc(a, c, Xor(b, d));
  }

  function Mask(x: bv32): bv32 {
    if x & 1 == 1 then POLY else 0
  }

  function Half(x: bv32): bv32 {
    x >> 1
  }

  lemma ShiftByMask(x: bv32)
    ensures Shift(x) == Xor(Half(x), Mask(x))
  {
  }

  lemma MaskLinear(x: bv32, y: bv32)
    ensures Mask(Xor(x, y)) == Xor(Mask(x), Mask(y))
  {
  }

  lemma HalfLinear(x: bv32, y: bv32)
    ensures Half(Xor(x, y)) == Xor(Half(x), Half(y))
  {
  }

  lemma ShiftLinear(x: bv32, y: bv32)
    ensures Shift(Xor(x, y)) == Xor(Shift(x), Shift(y))
  {
    hide Shift, Xor, Mask, Half;
    ShiftByMask(x);
    ShiftByMask(y);
    ShiftByMask(Xor(x, y));
    MaskLinear(x, y);
    HalfLinear(x, y);
    XorPairs(Half(x), Mask(x), Half(y), Mask(y));
  }

  lemma {:induction false} ShiftsLinear(n: nat, x: bv32, y: bv32)
    ensures Shifts(n, Xor(x, y)) == Xor(Shifts(n, x), Shifts(n, y))
  {
    hide Shift, Xor;
    if n != 0 {
      ShiftsLinear(n - 1, x, y);
      ShiftLinear(Shifts(n - 1, x), Shifts(n - 1, y));
    }
  }

  lemma BlankNibble(x: bv32)
    requires x & 0xf == 0
    ensures Shift(Shift(Shift(Shift(x)))) == x >> 4
  {
  }

  /** Each table entry is what four shifts make of its index. */
  lemma TableEntry(x: bv32)
    requires x < 16
    ensures Shift(Shift(Shift(Shift(x)))) == RTABLE[x as int]
  {
    if x < 8 {
      if x == 0 {} else if x == 1 {} else if x == 2 {} else if x == 3 {}
      else if x == 4 {} else if x == 5 {} else if x == 6 {} else { assert x == 7; }
    } else {
      if x == 8 {} else if x == 9 {} else if x == 10 {} else if x == 11 {}
      else if x == 12 {} else if x == 13 {} else if x == 14 {} else { assert x == 15; }
    }
  }

  lemma NibbleParts(x: bv32)
    ensures var hi, lo := x & 0xfffffff0, x & 0xf;
      x == Xor(hi, lo) && hi & 0xf == 0 && lo < 16 && hi >> 4 == High(x)
  {
  }

  lemma FourShiftsByTable(x: bv32)
    ensures Shifts(4, x) == Xor(High(x), Entry(x))
  {
    hide Shift, Xor, High;
    var hi, lo := x & 0xfffffff0, x & 0xf;
    NibbleParts(x);
    ShiftsLinear(4, hi, lo);
    FourShifts(hi);
    FourShifts(lo);
    BlankNibble(hi);
    TableEntry(lo);
  }

  lemma RegIsOctet(b: byte)
    ensures Reg(b) < 256
  {
  }

  lemma HighXor(x: bv32, y: bv32)
    ensures High(Xor(x, y)) == Xor(High(x), High(y))
  {
  }

  lemma HighTwice(b: bv32)
    requires b < 256
    ensures High(High(b)) == 0
  {
  }

  /** Two table look-ups do the work of eight shifts. */
  lemma LfsFeedIsFeed(crc: bv32, b: byte)
    ensures LfsFeed(crc, b) == Feed(crc, b)
  {
    hide Xor, High, Entry, Reg, Shift;
    var r := Reg(b);
    var x := Xor(crc, r);
    var s := Nibble(crc, r);
    var y := Xor(s, High(r));
    FourShiftsByTable(x);
    HighXor(crc, r);
    XorAssoc(High(crc), High(r), Entry(x));
    XorComm(High(r), Entry(x));
    XorAssoc(High(crc), Entry(x), High(r));
    assert Shifts(4, x) == y;
    FourShiftsByTable(y);
    HighXor(s, High(r));
    RegIsOctet(b);
    HighTwice(r);
    XorNil(High(s));
    EightShifts(x);
  }

  lemma {:induction false} TableRefinesBitSerial(crc: bv32, data: seq<byte>)
    ensures LfsCrc(crc, data) == Register(crc, data)
  {
    hide LfsFeed, Feed;
    if data != [] {
      var n := |data| - 1;
      TableRefinesBitSerial(crc, data[..n]);
      LfsFeedIsFeed(Register(crc, data[..n]), data[n]);
    }
  }

  method LfsCrcLoop(init: bv32, data: seq<byte>) returns (crc: bv32)
    ensures crc == LfsCrc(init, data)
    ensures crc == Register(init, data)
  {
    hide Nibble, High, Reg, Shifts, Xor;
    crc := init;
    for i := 0 to |data|
      invariant crc == LfsCrc(init, data[..i])
    {
      var b := Reg(data[i]);
      crc := Nibble(crc, b);
      crc := Nibble(crc, High(b));
      assert data[..i + 1][..i] == data[..i];
    }
    assert data[..|data|] == data;
    TableRefinesBitSerial(init, data);
  }

  /** `iotv_crc32(d) == ~lfs_crc(0xFFFFFFFF, d)` for every string of octets. */
  lemma IotvCrcIsComplementedLfsCrc(data: seq<byte>)
    ensures Crc32(data) == Number(Complement(LfsCrc(0xFFFFFFFF, data)))
  {
    hide Number, Complement, Register, LfsCrc;
    TableRefinesBitSerial(0xFFFFFFFF, data);
  }

  lemma {:induction false} RegisterChains(crc: bv32, a: seq<byte>, b: seq<byte>)
    ensures Register(crc, a + b) == Register(Register(crc, a), b)
    decreases |b|
  {
    hide Feed;
    if b == [] {
      assert a + b == a;
    } else {
      var n := |b| - 1;
      RegisterChains(crc, a, b[..n]);
      assert (a + b)[..|a + b| - 1] == a + b[..n];
    }
  }

  /** `lfs_crc` may be run over a string in pieces. */
  lemma LfsCrcChains(crc: bv32, a: seq<byte>, b: seq<byte>)
    ensures LfsCrc(crc, a + b) == LfsCrc(LfsCrc(crc, a), b)
  {
    hide LfsFeed, Feed;
    TableRefinesBitSerial(crc, a + b);
    TableRefinesBitSerial(crc, a);
    TableRefinesBitSerial(LfsCrc(crc, a), b);
    RegisterChains(crc, a, b);
  }

  // ---------------------------------------------------------------- registers and numbers

  lemma MoreHalved(n: nat, b: bool)
    ensures More(n, b) / 2 == n && (More(n, b) % 2 == 1 <==> b)
  {
  }

  lemma HalfHalf(n: nat)
    ensures n / 4 == n / 2 / 2 && n / 8 == n / 4 / 2 && n / 16 == n / 8 / 2
    ensures n / 32 == n / 16 / 2 && n / 64 == n / 32 / 2 && n / 128 == n / 64 / 2
  {
  }

  lemma BinaryDigit(b7: bool, b6: bool, b5: bool, b4: bool, b3: bool, b2: bool, b1: bool, b0: bool)
    ensures var n := Binary(b7, b6, b5, b4, b3, b2, b1, b0);
      && (Digit(n, 128) == 1 <==> b7) && (Digit(n, 64) == 1 <==> b6) && (Digit(n, 32) == 1 <==> b5)
      && (Digit(n, 16) == 1 <==> b4) && (Digit(n, 8) == 1 <==> b3) && (Digit(n, 4) == 1 <==> b2)
      && (Digit(n, 2) == 1 <==> b1) && (Digit(n, 1) == 1 <==> b0)
  {
    hide More;
    var n7 := More(0, b7);
    var n6 := More(n7, b6);
    var n5 := More(n6, b5);
    var n4 := More(n5, b4);
    var n3 := More(n4, b3);
    var n2 := More(n3, b2);
    var n1 := More(n2, b1);
    MoreHalved(0, b7);
    MoreHalved(n7, b6);
    MoreHalved(n6, b5);
    MoreHalved(n5, b4);
    MoreHalved(n4, b3);
    MoreHalved(n3, b2);
    MoreHalved(n2, b1);
    MoreHalved(n1, b0);
    HalfHalf(More(n1, b0));
  }

  lemma PackBits(x: bv32)
    ensures Pack(Bit(x, 0x80), Bit(x, 0x40), Bit(x, 0x20), Bit(x, 0x10),
                 Bit(x, 0x08), Bit(x, 0x04), Bit(x, 0x02), Bit(x, 0x01)) == x & 0xFF
  {
  }

  /** The octet of a register feeds back as its low end. */
  lemma RegOctet(x: bv32)
    ensures Reg(Octet(x)) == Low(x)
  {
    hide Pack, Bit, Binary, Digit;
    BinaryDigit(Bit(x, 0x80), Bit(x, 0x40), Bit(x, 0x20), Bit(x, 0x10),
                Bit(x, 0x08), Bit(x, 0x04), Bit(x, 0x02), Bit(x, 0x01));
    PackBits(x);
  }

  lemma SplitWord(a: byte, b: byte, c: byte, d: byte)
    ensures Le32(a + 0x100 * b + 0x1_0000 * c + 0x100_0000 * d) == [a, b, c, d]
  {
    assert (a + 0x100 * b + 0x1_0000 * c + 0x100_0000 * d) / 256 == b + 0x100 * c + 0x1_0000 * d;
    assert (a + 0x100 * b + 0x1_0000 * c + 0x100_0000 * d) / 0x1_0000 == c + 0x100 * d;
  }

  /** The octets of a register, least significant first. */
  lemma NumberOctets(x: bv32)
    ensures Le32(Number(x)) == [Octet(x), Octet(Drop(x)), Octet(Drop(Drop(x))), Octet(Drop(Drop(Drop(x))))]
  {
    hide Octet, Drop, Le32;
    SplitWord(Octet(x), Octet(Drop(x)), Octet(Drop(Drop(x))), Octet(Drop(Drop(Drop(x)))));
  }

  lemma SameRegister(x: bv32, y: bv32)
    requires Low(x) == Low(y) && Low(Drop(x)) == Low(Drop(y))
    requires Low(Drop(Drop(x))) == Low(Drop(Drop(y))) && Low(Drop(Drop(Drop(x)))) == Low(Drop(Drop(Drop(y))))
    ensures x == y
  {
  }

  lemma SameLow(x: bv32, y: bv32)
    requires Octet(x) == Octet(y)
    ensures Low(x) == Low(y)
  {
    hide Octet, Reg, Low;
    RegOctet(x);
    RegOctet(y);
  }

  lemma SameNumber(x: bv32, y: bv32)
    requires Number(x) == Number(y)
    ensures Octet(x) == Octet(y) && Octet(Drop(x)) == Octet(Drop(y))
    ensures Octet(Drop(Drop(x))) == Octet(Drop(Drop(y))) && Octet(Drop(Drop(Drop(x)))) == Octet(Drop(Drop(Drop(y))))
  {
    hide Octet, Drop, Number, Le32;
    NumberOctets(x);
    NumberOctets(y);
    var a, b := Le32(Number(x)), Le32(Number(y));
    assert a[0] == b[0] && a[1] == b[1] && a[2] == b[2] && a[3] == b[3];
  }

  lemma NumberInjective(x: bv32, y: bv32)
    requires Number(x) == Number(y)
    ensures x == y
  {
    hide Octet, Drop, Low, Number;
    SameNumber(x, y);
    SameLow(x, y);
    SameLow(Drop(x), Drop(y));
    SameLow(Drop(Drop(x)), Drop(Drop(y)));
    SameLow(Drop(Drop(Drop(x))), Drop(Drop(Drop(y))));
    SameRegister(x, y);
  }

  // ---------------------------------------------------------------- error detection

  /** The difference of two registers evolves without reference to the registers themselves. */
  lemma FeedDifference(c: bv32, d: bv32, a: byte, b: byte)
    ensures Xor(Feed(c, a), Feed(d, b)) == Shifts(8, Xor(Xor(c, d), Xor(Reg(a), Reg(b))))
  {
    hide Shifts, Xor, Reg;
    ShiftsLinear(8, Xor(c, Reg(a)), Xor(d, Reg(b)));
    XorPairs(c, Reg(a), d, Reg(b));
  }

  function Shift8(x: bv32): bv32 {
    Shift(Shift(Shift(Shift(Shift(Shift(Shift(Shift(x))))))))
  }

  lemma Unrolled(x: bv32)
    ensures Shifts(8, x) == Shift8(x)
  {
    hide Shift;
    EightShifts(x);
    FourShifts(x);
    FourShifts(Shifts(4, x));
  }

  /** A shift is invertible, so a difference never vanishes. */
  lemma Shift8Kernel(x: bv32)
    requires Shift8(x) == 0
    ensures x == 0
  {
  }

  /** A non-zero difference spread over four octets never cancels. */
  lemma WindowKernel(a: bv32, b: bv32, c: bv32, d: bv32)
    requires a < 256 && b < 256 && c < 256 && d < 256
    requires Shift8(Xor(Shift8(Xor(Shift8(Xor(Shift8(a), b)), c)), d)) == 0
    ensures a == 0 && b == 0 && c == 0 && d == 0
  {
  }

  lemma XorSelf(x: bv32)
    ensures Xor(x, x) == 0
  {
  }

  lemma XorZero(x: bv32, y: bv32)
    requires Xor(x, y) == 0
    ensures x == y
  {
  }

  lemma PackInjective(a7: bool, a6: bool, a5: bool, a4: bool, a3: bool, a2: bool, a1: bool, a0: bool,
                      b7: bool, b6: bool, b5: bool, b4: bool, b3: bool, b2: bool, b1: bool, b0: bool)
    requires Pack(a7, a6, a5, a4, a3, a2, a1, a0) == Pack(b7, b6, b5, b4, b3, b2, b1, b0)
    ensures a7 == b7 && a6 == b6 && a5 == b5 && a4 == b4 && a3 == b3 && a2 == b2 && a1 == b1 && a0 == b0
  {
  }

  lemma BinaryDigits(b: byte)
    ensures b == Digit(b, 128) * 128 + Digit(b, 64) * 64 + Digit(b, 32) * 32 + Digit(b, 16) * 16
               + Digit(b, 8) * 8 + Digit(b, 4) * 4 + Digit(b, 2) * 2 + Digit(b, 1)
  {
    assert b / 4 == b / 2 / 2 && b / 8 == b / 4 / 2 && b / 16 == b / 8 / 2;
    assert b / 32 == b / 16 / 2 && b / 64 == b / 32 / 2 && b / 128 == b / 64 / 2;
  }

  lemma SameDigits(a: byte, b: byte)
    requires Reg(a) == Reg(b)
    ensures Digit(a, 128) == Digit(b, 128) && Digit(a, 64) == Digit(b, 64) && Digit(a, 32) == Digit(b, 32)
         && Digit(a, 16) == Digit(b, 16) && Digit(a, 8) == Digit(b, 8) && Digit(a, 4) == Digit(b, 4)
         && Digit(a, 2) == Digit(b, 2) && Digit(a, 1) == Digit(b, 1)
  {
    hide Pack;
    PackInjective(Digit(a, 128) == 1, Digit(a, 64) == 1, Digit(a, 32) == 1, Digit(a, 16) == 1,
                  Digit(a, 8) == 1, Digit(a, 4) == 1, Digit(a, 2) == 1, Digit(a, 1) == 1,
                  Digit(b, 128) == 1, Digit(b, 64) == 1, Digit(b, 32) == 1, Digit(b, 16) == 1,
                  Digit(b, 8) == 1, Digit(b, 4) == 1, Digit(b, 2) == 1, Digit(b, 1) == 1);
  }

  lemma SameOctet(a: byte, b: byte)
    requires Reg(a) == Reg(b)
    ensures a == b
  {
    hide Reg, Digit;
    SameDigits(a, b);
    BinaryDigits(a);
    BinaryDigits(b);
  }

  lemma OctetXor(x: bv32, y: bv32)
    requires x < 256 && y < 256
    ensures Xor(x, y) < 256
  {
  }

  lemma RegDifference(a: byte, b: byte)
    ensures Xor(Reg(a), Reg(b)) < 256
  {
    hide Xor, Reg;
    RegIsOctet(a);
    RegIsOctet(b);
    OctetXor(Reg(a), Reg(b));
  }

  /** Different registers stay different under equal input. */
  lemma {:induction false} EqualInputKeepsDifference(c: bv32, d: bv32, data: seq<byte>)
    requires c != d
    ensures Register(c, data) != Register(d, data)
  {
    hide Xor, Feed, Reg, Shift8, Shifts;
    if data != [] {
      var n := |data| - 1;
      var x, y := Register(c, data[..n]), Register(d, data[..n]);
      var r := Reg(data[n]);
      EqualInputKeepsDifference(c, d, data[..n]);
      FeedDifference(x, y, data[n], data[n]);
      XorSelf(r);
      XorNil(Xor(x, y));
      Unrolled(Xor(x, y));
      XorSelf(Feed(x, data[n]));
      if Feed(x, data[n]) == Feed(y, data[n]) {
        Shift8Kernel(Xor(x, y));
        XorZero(x, y);
      }
    }
  }

  lemma DifferenceAfter(crc: bv32, a: seq<byte>, b: seq<byte>, n: nat)
    requires 1 <= n <= |a| == |b|
    ensures Xor(Register(crc, a[..n]), Register(crc, b[..n]))
         == Shift8(Xor(Xor(Register(crc, a[..n - 1]), Register(crc, b[..n - 1])), Xor(Reg(a[n - 1]), Reg(b[n - 1]))))
  {
    hide Xor, Feed, Reg, Shift8, Shifts;
    assert a[..n][..n - 1] == a[..n - 1] && b[..n][..n - 1] == b[..n - 1];
    var c, d := Register(crc, a[..n - 1]), Register(crc, b[..n - 1]);
    FeedDifference(c, d, a[n - 1], b[n - 1]);
    Unrolled(Xor(Xor(c, d), Xor(Reg(a[n - 1]), Reg(b[n - 1]))));
  }

  /** Four octets that are not all the same leave different registers. */
  lemma FourOctets(crc: bv32, a: seq<byte>, b: seq<byte>)
    requires |a| == |b| == 4 && a != b
    ensures Register(crc, a) != Register(crc, b)
  {
    hide Xor, Reg, Register, Shift8;
    DifferenceAfter(crc, a, b, 1);
    DifferenceAfter(crc, a, b, 2);
    DifferenceAfter(crc, a, b, 3);
    DifferenceAfter(crc, a, b, 4);
    assert a[..0] == b[..0];
    XorSelf(Register(crc, a[..0]));
    XorNil(Xor(Reg(a[0]), Reg(b[0])));
    assert a[..4] == a && b[..4] == b;
    if Register(crc, a) == Register(crc, b) {
      XorSelf(Register(crc, a));
      RegDifference(a[0], b[0]);
      RegDifference(a[1], b[1]);
      RegDifference(a[2], b[2]);
      RegDifference(a[3], b[3]);
      WindowKernel(Xor(Reg(a[0]), Reg(b[0])), Xor(Reg(a[1]), Reg(b[1])),
                   Xor(Reg(a[2]), Reg(b[2])), Xor(Reg(a[3]), Reg(b[3])));
      XorZero(Reg(a[0]), Reg(b[0]));
      SameOctet(a[0], b[0]);
      XorZero(Reg(a[1]), Reg(b[1]));
      SameOctet(a[1], b[1]);
      XorZero(Reg(a[2]), Reg(b[2]));
      SameOctet(a[2], b[2]);
      XorZero(Reg(a[3]), Reg(b[3]));
      SameOctet(a[3], b[3]);
    }
  }

  /** Shorter windows are four-octet windows with equal padding. */
  lemma ShortWindow(crc: bv32, a: seq<byte>, b: seq<byte>)
    requires |a| == |b| <= 4 && a != b
    ensures Register(crc, a) != Register(crc, b)
  {
    hide Register;
    var pad: seq<byte> := seq(4 - |a|, _ => 0);
    assert (a + pad)[..|a|] == a && (b + pad)[..|b|] == b;
    FourOctets(crc, a + pad, b + pad);
    RegisterChains(crc, a, pad);
    RegisterChains(crc, b, pad);
  }

  lemma ComplementInjective(x: bv32, y: bv32)
    requires Complement(x) == Complement(y)
    ensures x == y
  {
  }

  lemma CrcDiffers(a: seq<byte>, b: seq<byte>)
    requires Register(0xFFFFFFFF, a) != Register(0xFFFFFFFF, b)
    ensures Crc32(a) != Crc32(b)
  {
    hide Complement, Register, Number;
    var x, y := Register(0xFFFFFFFF, a), Register(0xFFFFFFFF, b);
    if Crc32(a) == Crc32(b) {
      NumberInjective(Complement(x), Complement(y));
      ComplementInjective(x, y);
    }
  }

  /** Two strings of one length that agree outside four consecutive octets. */
  ghost predicate DifferOnlyInWindow(a: seq<byte>, b: seq<byte>, at: nat) {
    && |a| == |b|
    && at <= |a|
    && a[..at] == b[..at]
    && forall i :: at + 4 <= i < |a| ==> a[i] == b[i]
  }

  /** CRC-32 detects every error confined to four consecutive octets. */
  lemma BurstDetected(a: seq<byte>, b: seq<byte>, at: nat)
    requires DifferOnlyInWindow(a, b, at) && a != b
    ensures Crc32(a) != Crc32(b)
  {
    hide Register, Crc32;
    var end := if at + 4 <= |a| then at + 4 else |a|;
    var start := Register(0xFFFFFFFF, a[..at]);
    assert a == a[..at] + (a[at..end] + a[end..]);
    assert b == b[..at] + (b[at..end] + b[end..]);
    assert a[end..] == b[end..];
    ShortWindow(start, a[at..end], b[at..end]);
    RegisterChains(0xFFFFFFFF, a[..at], a[at..end] + a[end..]);
    RegisterChains(0xFFFFFFFF, b[..at], b[at..end] + b[end..]);
    RegisterChains(start, a[at..end], a[end..]);
    RegisterChains(start, b[at..end], b[end..]);
    EqualInputKeepsDifference(Register(start, a[at..end]), Register(start, b[at..end]), a[end..]);
    CrcDiffers(a, b);
  }

  // ---------------------------------------------------------------- the residue

  lemma Feeding(c: bv32, b: byte)
    ensures Feed(c, b) == Shift8(Xor(c, Reg(b)))
  {
    hide Shifts, Shift8, Xor, Reg;
    Unrolled(Xor(c, Reg(b)));
  }

  lemma ShiftWhole(y: bv32)
    ensures Shift8(y & !0xFF) == Drop(y)
  {
  }

  lemma FillOctet(y: bv32, c: bv32)
    ensures Xor(Xor(y, c), Low(Complement(y))) == Xor(y & !0xFF, Xor(c, 0xFF))
  {
  }

  /** Feeding the complement of the low octet: what is above it moves down, and the rest is known. */
  lemma FeedComplement(y: bv32, c: bv32)
    ensures Feed(Xor(y, c), Octet(Complement(y))) == Xor(Drop(y), Shift8(Xor(c, 0xFF)))
  {
    hide Shift8, Shifts, Xor, Feed, Reg, Octet, Low, Complement, Drop;
    Feeding(Xor(y, c), Octet(Complement(y)));
    RegOctet(Complement(y));
    FillOctet(y, c);
    var high := y & !0xFF;
    ShiftsLinear(8, high, Xor(c, 0xFF));
    Unrolled(high);
    Unrolled(Xor(c, 0xFF));
    Unrolled(Xor(high, Xor(c, 0xFF)));
    ShiftWhole(y);
  }

  /** The registers in which only complemented octets were fed. */
  lemma FilledOctets()
    ensures Shift8(Xor(0, 0xFF)) == 0x2D02EF8D && Shift8(Xor(0x2D02EF8D, 0xFF)) == 0xBE2612FF
    ensures Shift8(Xor(0xBE2612FF, 0xFF)) == 0x00BE2612 && Shift8(Xor(0x00BE2612, 0xFF)) == 0xDEBB20E3
  {
  }

  lemma DropComplement(y: bv32)
    ensures Low(Drop(Complement(y))) == Low(Complement(Drop(y)))
    ensures Low(Drop(Drop(Complement(y)))) == Low(Complement(Drop(Drop(y))))
    ensures Low(Drop(Drop(Drop(Complement(y))))) == Low(Complement(Drop(Drop(Drop(y)))))
    ensures Drop(Drop(Drop(Drop(y)))) == 0
  {
  }

  lemma OctetIsLow(x: bv32, y: bv32)
    requires Low(x) == Low(y)
    ensures Octet(x) == Octet(y)
  {
    hide Octet, Reg, Low;
    RegOctet(x);
    RegOctet(y);
    SameOctet(Octet(x), Octet(y));
  }

  lemma FeedFour(r: bv32, s: seq<byte>)
    requires |s| == 4
    ensures Register(r, s) == Feed(Feed(Feed(Feed(r, s[0]), s[1]), s[2]), s[3])
  {
    hide Feed;
    assert s[..4] == s && s[..3][..2] == s[..2] && s[..2][..1] == s[..1] && s[..1][..0] == [];
    assert Register(r, s[..1]) == Feed(r, s[0]);
    assert Register(r, s[..2]) == Feed(Feed(r, s[0]), s[1]);
    assert Register(r, s[..3]) == Feed(Feed(Feed(r, s[0]), s[1]), s[2]);
  }

  /** The register after the four octets of its own complement is always the same. */
  lemma ResidueOfRegister(r: bv32)
    ensures Register(r, Le32(Number(Complement(r)))) == 0xDEBB20E3
  {
    hide Shift8, Xor, Feed, Reg, Octet, Number, Le32, Register, Complement, Drop, Low;
    var c := Complement(r);
    NumberOctets(c);
    FeedFour(r, Le32(Number(c)));
    FilledOctets();
    DropComplement(r);
    OctetIsLow(Drop(c), Complement(Drop(r)));
    OctetIsLow(Drop(Drop(c)), Complement(Drop(Drop(r))));
    OctetIsLow(Drop(Drop(Drop(c))), Complement(Drop(Drop(Drop(r)))));
    XorNil(r);
    FeedComplement(r, 0);
    FeedComplement(Drop(r), 0x2D02EF8D);
    FeedComplement(Drop(Drop(r)), 0xBE2612FF);
    FeedComplement(Drop(Drop(Drop(r))), 0x00BE2612);
    XorNil(0xDEBB20E3);
  }

  /**
   The residue law of CRC-32: whatever the string, feeding its checksum after it, least significant octet
   first, leaves the register at one constant.
   */
  lemma Residue(d: seq<byte>)
    ensures Register(0xFFFFFFFF, d + Le32(Crc32(d))) == 0xDEBB20E3
  {
    hide Register, Number, Complement, Le32;
    RegisterChains(0xFFFFFFFF, d, Le32(Crc32(d)));
    ResidueOfRegister(Register(0xFFFFFFFF, d));
  }

  lemma TagOctets()
    ensures Reg(73) == 73 && Reg(69) == 69 && Reg(78) == 78 && Reg(68) == 68
  {
  }

  lemma TagRegisters()
    ensures Shift8(Xor(0xFFFFFFFF, 73)) == 0x22FDE946 && Shift8(Xor(0x22FDE946, 69)) == 0x992BAC53
    ensures Shift8(Xor(0x992BAC53, 78)) == 0x639F4775 && Shift8(Xor(0x639F4775, 68)) == 0x51BD9F7D
  {
  }

  lemma KnownNumbers()
    ensures Number(Complement(0xFFFFFFFF)) == 0 && Number(Complement(0x51BD9F7D)) == 0xAE42_6082
  {
  }

  /** The checksums of no octets and of the tag IEND. */
  lemma KnownChecksums()
    ensures Crc32([]) == 0
    ensures Crc32([73, 69, 78, 68]) == 0xAE42_6082
  {
    hide Feed, Number, Complement, Shift8, Xor, Reg;
    FeedFour(0xFFFFFFFF, [73, 69, 78, 68]);
    Feeding(0xFFFFFFFF, 73);
    Feeding(0x22FDE946, 69);
    Feeding(0x992BAC53, 78);
    Feeding(0x639F4775, 68);
    TagOctets();
    TagRegisters();
    KnownNumbers();
  }
}
