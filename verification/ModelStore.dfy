/**
 Persistence of a model blob in NOR flash (src/model_store/model_store.c).  Flash is an array of octets:
 erasing sets a whole range to 0xFF, programming can only clear bits.  Every driver call is one step; it
 may fail, and power may be lost after any of them.
 */
module ModelStore {
  import opened Arith
  import opened Bytes
  import opened Wrappers
  import opened Crc
  import opened Iotv

  const FLASH_SIZE := 64 * 1024 * 1024
  const SLOT := 56 * 1024 * 1024
  const ERASE_BLOCK := 65536
  const PROG_CHUNK := 64
  const SLOT_SIZE := 8 * 1024 * 1024

  // The LittleFS region of the same flash (ra_gen/common_data.c).
  const LITTLEFS := 0x0200_0000
  const LITTLEFS_SIZE := 16777216

  // ---------------------------------------------------------------- NOR flash

  /** Bitwise and. */
  function And(a: nat, b: nat): nat {
    if a == 0 || b == 0 then 0 else 2 * And(a / 2, b / 2) + (a % 2) * (b % 2)
  }

  function Power(k: nat): (r: nat)
    ensures r > 0
  {
    if k == 0 then 1 else 2 * Power(k - 1)
  }

  lemma {:induction false} AndOnes(k: nat, x: nat)
    requires x < Power(k)
    ensures And(Power(k) - 1, x) == x
  {
    if k > 0 && x != 0 {
      AndOnes(k - 1, x / 2);
      assert (Power(k) - 1) / 2 == Power(k - 1) - 1;
      assert (Power(k) - 1) % 2 == 1;
    }
  }

  function BitOf(a: nat, k: nat): nat {
    a / Power(k) % 2
  }

  lemma DivDiv(a: nat, b: nat, c: nat)
    requires b > 0 && c > 0
    ensures b * c > 0 && a / (b * c) == a / b / c
  {
    var q := a / b / c;
    QuotientIff(a, b, a / b);
    QuotientIff(a / b, c, q);
    assert q * c <= a / b && a / b + 1 <= (q + 1) * c;
    MonoTimes(q * c, a / b, b);
    MonoTimes(a / b + 1, (q + 1) * c, b);
    assert q * (b * c) == q * c * b && (q + 1) * (b * c) == (q + 1) * c * b;
    QuotientIff(a, b * c, q);
  }

  lemma HalfPower(a: nat, k: nat)
    requires k > 0
    ensures a / Power(k) == a / 2 / Power(k - 1)
  {
    DivDiv(a, 2, Power(k - 1));
  }

  lemma BitCases(a: nat, b: nat)
    requires a != 0 && b != 0
    ensures And(a, b) / 2 == And(a / 2, b / 2)
    ensures And(a, b) % 2 == 1 <==> a % 2 == 1 && b % 2 == 1
  {
    if a % 2 == 0 {
    } else if b % 2 == 0 {
    }
  }

  /** Bit by bit, the result is set exactly where both are. */
  lemma {:induction false} AndBits(a: nat, b: nat, k: nat)
    ensures BitOf(And(a, b), k) == 1 <==> BitOf(a, k) == 1 && BitOf(b, k) == 1
  {
    if a == 0 || b == 0 {
      assert 0 / Power(k) == 0;
    } else if k == 0 {
      BitCases(a, b);
    } else {
      AndBits(a / 2, b / 2, k - 1);
      HalfPower(a, k);
      HalfPower(b, k);
      HalfPower(And(a, b), k);
      BitCases(a, b);
    }
  }

  /** Programming over an erased octet stores it. */
  lemma ErasedTakes(x: byte)
    ensures And(255, x) == x
  {
    assert Power(4) == 16;
    assert Power(8) == 256;
    AndOnes(8, x);
  }

  lemma {:induction false} AndClears(a: nat, b: nat)
    ensures And(a, b) <= a && And(a, b) <= b
  {
    if a != 0 && b != 0 {
      AndClears(a / 2, b / 2);
      assert (a % 2) * (b % 2) <= a % 2 && (a % 2) * (b % 2) <= b % 2 by {
        if a % 2 == 0 {
        } else if b % 2 == 0 {
        }
      }
    }
  }

  function AndByte(a: byte, b: byte): byte {
    AndClears(a, b);
    And(a, b)
  }

  type Cells = c: seq<byte> | |c| == FLASH_SIZE witness seq(FLASH_SIZE, _ => 0)

  datatype Op = Erase(at: nat, size: nat) | Program(at: nat, data: seq<byte>)

  function Size(op: Op): nat {
    match op
    case Erase(_, n) => n
    case Program(_, data) => |data|
  }

  predicate Fits(op: Op) {
    op.at + Size(op) <= FLASH_SIZE
  }

  function CellAfter(was: byte, op: Op, i: nat): byte
    requires op.at <= i < op.at + Size(op)
  {
    match op
    case Erase(_, _) => 255
    case Program(at, data) => AndByte(was, data[i - at])
  }

  /** The flash after one completed driver call. */
  function Apply(c: Cells, op: Op): (d: Cells)
    requires Fits(op)
    ensures forall i :: 0 <= i < FLASH_SIZE ==>
      d[i] == if op.at <= i < op.at + Size(op) then CellAfter(c[i], op, i) else c[i]
  {
    seq(FLASH_SIZE, i requires 0 <= i < FLASH_SIZE =>
      if op.at <= i < op.at + Size(op) then CellAfter(c[i], op, i) else c[i])
  }

  ghost predicate AllFit(ops: seq<Op>) {
    forall i :: 0 <= i < |ops| ==> Fits(ops[i])
  }

  /** The flash after a run of completed driver calls. */
  ghost function Run(c: Cells, ops: seq<Op>): Cells
    requires AllFit(ops)
  {
    if ops == [] then c else Apply(Run(c, ops[..|ops| - 1]), ops[|ops| - 1])
  }

  // ---------------------------------------------------------------- what a save is to do

  /** The whole 64 KiB blocks covering `len` octets. */
  function EraseLen(len: nat): nat {
    (len + ERASE_BLOCK - 1) / ERASE_BLOCK * ERASE_BLOCK
  }

  function Erases(n: nat): (ops: seq<Op>)
    ensures |ops| == n
    ensures forall i :: 0 <= i < n ==> ops[i] == Erase(SLOT + i * ERASE_BLOCK, ERASE_BLOCK)
  {
    seq(n, i requires 0 <= i < n => Erase(SLOT + i * ERASE_BLOCK, ERASE_BLOCK))
  }

  function ChunkEnd(len: nat, k: nat): nat {
    if k * PROG_CHUNK < len then k * PROG_CHUNK else len
  }

  function Chunks(len: nat): nat {
    (len + PROG_CHUNK - 1) / PROG_CHUNK
  }

  function Chunk(blob: seq<byte>, i: nat): seq<byte>
    requires i < Chunks(|blob|)
  {
    blob[i * PROG_CHUNK..ChunkEnd(|blob|, i + 1)]
  }

  function Programs(blob: seq<byte>, n: nat): (ops: seq<Op>)
    requires n <= Chunks(|blob|)
    ensures |ops| == n
    ensures forall i :: 0 <= i < n ==> ops[i] == Program(SLOT + i * PROG_CHUNK, Chunk(blob, i))
  {
    seq(n, i requires 0 <= i < n => Program(SLOT + i * PROG_CHUNK, Chunk(blob, i)))
  }

  /** Every driver call a save makes when none fails. */
  function Plan(blob: seq<byte>): seq<Op> {
    Erases(EraseLen(|blob|) / ERASE_BLOCK) + Programs(blob, Chunks(|blob|))
  }

  lemma PlanFits(blob: seq<byte>)
    requires |blob| <= SLOT_SIZE
    ensures AllFit(Plan(blob))
    ensures forall k :: 0 <= k <= |Plan(blob)| ==> AllFit(Plan(blob)[..k])
  {
  }

  lemma PlanLength(blob: seq<byte>)
    ensures |Plan(blob)| == EraseLen(|blob|) / ERASE_BLOCK + Chunks(|blob|)
  {
  }

  /** The commands of a save: the 64 KiB blocks of the slot from its start, then the blob in pieces of 64 octets. */
  lemma PlanShape(blob: seq<byte>, j: nat)
    ensures |Plan(blob)| == (|blob| + 65535) / 65536 + (|blob| + 63) / 64
    ensures j < (|blob| + 65535) / 65536 ==> Plan(blob)[j] == Erase(58_720_256 + 65536 * j, 65536)
    ensures var k := j - (|blob| + 65535) / 65536;
      0 <= k && 64 * k + 64 <= |blob| ==>
        j < |Plan(blob)| && Plan(blob)[j] == Program(58_720_256 + 64 * k, blob[64 * k..64 * k + 64])
    ensures var k := j - (|blob| + 65535) / 65536;
      0 <= k && 64 * k < |blob| < 64 * k + 64 ==>
        j < |Plan(blob)| && Plan(blob)[j] == Program(58_720_256 + 64 * k, blob[64 * k..])
  {
    PlanLength(blob);
  }

  /** A save stays inside the flash exactly up to the size of the slot, which ends with the flash. */
  lemma PlanFitsIff(blob: seq<byte>)
    ensures AllFit(Plan(blob)) <==> |blob| <= 8_388_608
  {
    if |blob| > SLOT_SIZE {
      var k := SLOT_SIZE / ERASE_BLOCK;
      assert k < EraseLen(|blob|) / ERASE_BLOCK;
      assert Plan(blob)[k] == Erase(SLOT + k * ERASE_BLOCK, ERASE_BLOCK);
    } else {
      PlanFits(blob);
    }
  }

  // ---------------------------------------------------------------- how far a save has come

  /** The slot after the first `e` blocks were erased and nothing was programmed. */
  ghost predicate ErasedTo(c: Cells, was: Cells, e: nat) {
    && SLOT + e * ERASE_BLOCK <= FLASH_SIZE
    && forall i :: 0 <= i < FLASH_SIZE ==> c[i] == if SLOT <= i < SLOT + e * ERASE_BLOCK then 255 else was[i]
  }

  /** The slot after all blocks were erased and the first `p` octets were programmed. */
  ghost predicate ProgrammedTo(c: Cells, was: Cells, blob: seq<byte>, p: nat) {
    && p <= |blob|
    && SLOT + EraseLen(|blob|) <= FLASH_SIZE
    && forall i :: 0 <= i < FLASH_SIZE ==>
      c[i] == if SLOT <= i < SLOT + p then blob[i - SLOT]
              else if SLOT <= i < SLOT + EraseLen(|blob|) then 255
              else was[i]
  }

  lemma EraseLenCovers(len: nat)
    ensures len <= EraseLen(len) < len + ERASE_BLOCK
    ensures EraseLen(len) % ERASE_BLOCK == 0
    ensures EraseLen(len) / ERASE_BLOCK * ERASE_BLOCK == EraseLen(len)
    ensures len <= SLOT_SIZE ==> EraseLen(len) <= SLOT_SIZE
  {
  }

  lemma ErasePrefix(blob: seq<byte>, e: nat)
    requires |blob| <= SLOT_SIZE && e < EraseLen(|blob|) / ERASE_BLOCK
    ensures e < |Plan(blob)| && Plan(blob)[e] == Erase(SLOT + e * ERASE_BLOCK, ERASE_BLOCK)
    ensures Plan(blob)[..e + 1] == Plan(blob)[..e] + [Plan(blob)[e]]
  {
  }

  lemma ProgramPrefix(blob: seq<byte>, k: nat)
    requires |blob| <= SLOT_SIZE && k < Chunks(|blob|)
    ensures var j := EraseLen(|blob|) / ERASE_BLOCK + k;
      && j < |Plan(blob)|
      && Plan(blob)[j] == Program(SLOT + k * PROG_CHUNK, Chunk(blob, k))
      && Plan(blob)[..j + 1] == Plan(blob)[..j] + [Plan(blob)[j]]
  {
  }

  lemma RunOneMore(c: Cells, ops: seq<Op>, op: Op)
    requires AllFit(ops + [op])
    ensures AllFit(ops) && Fits(op) && Run(c, ops + [op]) == Apply(Run(c, ops), op)
  {
    assert (ops + [op])[|ops|] == op;
    assert forall i :: 0 <= i < |ops| ==> (ops + [op])[i] == ops[i];
    assert (ops + [op])[..|ops|] == ops;
  }

  lemma {:induction false} AfterErases(c: Cells, blob: seq<byte>, e: nat)
    requires |blob| <= SLOT_SIZE && e <= EraseLen(|blob|) / ERASE_BLOCK
    ensures AllFit(Plan(blob)[..e])
    ensures ErasedTo(Run(c, Plan(blob)[..e]), c, e)
  {
    hide Plan, EraseLen;
    PlanFits(blob);
    EraseLenCovers(|blob|);
    if e > 0 {
      AfterErases(c, blob, e - 1);
      ErasePrefix(blob, e - 1);
      RunOneMore(c, Plan(blob)[..e - 1], Plan(blob)[e - 1]);
    }
  }

  /** Programming over erased octets leaves exactly the chunk. */
  lemma ProgramStep(d: Cells, c: Cells, blob: seq<byte>, k: nat)
    requires |blob| <= SLOT_SIZE && k < Chunks(|blob|)
    requires ProgrammedTo(d, c, blob, ChunkEnd(|blob|, k))
    requires Fits(Program(SLOT + k * PROG_CHUNK, Chunk(blob, k)))
    ensures ProgrammedTo(Apply(d, Program(SLOT + k * PROG_CHUNK, Chunk(blob, k))), c, blob, ChunkEnd(|blob|, k + 1))
  {
    hide And;
    EraseLenCovers(|blob|);
    var op := Program(SLOT + k * PROG_CHUNK, Chunk(blob, k));
    var p, q := ChunkEnd(|blob|, k), ChunkEnd(|blob|, k + 1);
    assert p == k * PROG_CHUNK && Size(op) == q - p;
    forall i | SLOT + p <= i < SLOT + q ensures Apply(d, op)[i] == blob[i - SLOT] {
      assert d[i] == 255;
      ErasedTakes(blob[i - SLOT]);
    }
  }

  lemma AllErased(d: Cells, c: Cells, blob: seq<byte>)
    requires |blob| <= SLOT_SIZE
    requires ErasedTo(d, c, EraseLen(|blob|) / ERASE_BLOCK)
    ensures ProgrammedTo(d, c, blob, 0)
  {
    EraseLenCovers(|blob|);
  }

  lemma {:induction false} AfterPrograms(c: Cells, blob: seq<byte>, k: nat)
    requires |blob| <= SLOT_SIZE && k <= Chunks(|blob|)
    ensures var j := EraseLen(|blob|) / ERASE_BLOCK + k;
      && j <= |Plan(blob)|
      && AllFit(Plan(blob)[..j])
      && ProgrammedTo(Run(c, Plan(blob)[..j]), c, blob, ChunkEnd(|blob|, k))
  {
    hide Plan, EraseLen, Chunk, ProgrammedTo;
    PlanFits(blob);
    PlanLength(blob);
    var e := EraseLen(|blob|) / ERASE_BLOCK;
    if k == 0 {
      AfterErases(c, blob, e);
      AllErased(Run(c, Plan(blob)[..e]), c, blob);
    } else {
      AfterPrograms(c, blob, k - 1);
      ProgramPrefix(blob, k - 1);
      RunOneMore(c, Plan(blob)[..e + k - 1], Plan(blob)[e + k - 1]);
      ProgramStep(Run(c, Plan(blob)[..e + k - 1]), c, blob, k - 1);
    }
  }

  /** The programs of a plan come after its erases, and where they go. */
  lemma ProgramsComeLast(blob: seq<byte>, j: nat)
    requires j < |Plan(blob)| && Plan(blob)[j].Program?
    ensures var e := EraseLen(|blob|) / ERASE_BLOCK; e <= j < e + Chunks(|blob|)
    ensures var k := j - EraseLen(|blob|) / ERASE_BLOCK; Plan(blob)[j] == Program(SLOT + k * PROG_CHUNK, Chunk(blob, k))
  {
    hide EraseLen;
    PlanLength(blob);
  }

  lemma ChunkSpan(blob: seq<byte>, k: nat)
    requires k < Chunks(|blob|)
    ensures ChunkEnd(|blob|, k) == k * PROG_CHUNK && k * PROG_CHUNK + |Chunk(blob, k)| <= |blob|
  {
  }

  /** No octet is programmed that was not erased by the same save. */
  lemma ErasedBeforeProgrammed(c: Cells, blob: seq<byte>, j: nat, i: nat)
    requires |blob| <= SLOT_SIZE && j < |Plan(blob)| && Plan(blob)[j].Program?
    requires Plan(blob)[j].at <= i < Plan(blob)[j].at + Size(Plan(blob)[j])
    ensures AllFit(Plan(blob)[..j]) && i < FLASH_SIZE && Run(c, Plan(blob)[..j])[i] == 255
  {
    hide Plan, Run, EraseLen, Chunks, Chunk, ChunkEnd, AllFit;
    EraseLenCovers(|blob|);
    ProgramsComeLast(blob, j);
    var k := j - EraseLen(|blob|) / ERASE_BLOCK;
    ChunkSpan(blob, k);
    AfterPrograms(c, blob, k);
  }

  /** Nothing outside the blocks covering the blob changes, however far the save gets. */
  lemma OutsideUntouched(c: Cells, blob: seq<byte>, j: nat, i: nat)
    requires |blob| <= SLOT_SIZE && j <= |Plan(blob)|
    requires i < FLASH_SIZE && !(SLOT <= i < SLOT + EraseLen(|blob|))
    ensures AllFit(Plan(blob)[..j]) && Run(c, Plan(blob)[..j])[i] == c[i]
  {
    hide Plan, Run;
    PlanLength(blob);
    EraseLenCovers(|blob|);
    var e := EraseLen(|blob|) / ERASE_BLOCK;
    if j <= e {
      AfterErases(c, blob, j);
    } else {
      AfterPrograms(c, blob, j - e);
    }
  }

  /** In particular the credentials partition is safe. */
  lemma LittleFsUntouched(c: Cells, blob: seq<byte>, j: nat)
    requires |blob| <= SLOT_SIZE && j <= |Plan(blob)|
    ensures AllFit(Plan(blob)[..j])
    ensures Run(c, Plan(blob)[..j])[0x0200_0000..0x0300_0000] == c[0x0200_0000..0x0300_0000]
  {
    hide Plan, Run, EraseLen;
    PlanFits(blob);
    forall i | LITTLEFS <= i < LITTLEFS + LITTLEFS_SIZE ensures Run(c, Plan(blob)[..j])[i] == c[i] {
      OutsideUntouched(c, blob, j, i);
    }
  }

  // ---------------------------------------------------------------- loading

  function Slot(c: Cells, len: nat): (s: seq<byte>)
    requires SLOT + len <= FLASH_SIZE
    ensures |s| == len
  {
    c[SLOT..SLOT + len]
  }

  const OK := 0
  const ENOENT := -2
  const EIO := -5
  const ENOMEM := -12
  const EINVAL := -22
  const EVERIFY := -84
  const ETIMEDOUT := -110

  /** Header plus payload, as a 32-bit sum. */
  function Total(c: Cells): nat {
    (ModelLen(Slot(c, HDR_LEN)) + HDR_LEN) % WORD
  }

  /** The answer of a load, and the buffer afterwards. */
  function LoadSpec(c: Cells, buf: seq<byte>, bufSize: nat): (int, seq<byte>)
    requires 40 <= |buf| && bufSize <= |buf|
  {
    if Slot(c, HDR_LEN)[..4] != MAGIC then (ENOENT, buf)
    else if ModelLen(Slot(c, HDR_LEN)) > MODEL_MAX_BLOB - HDR_LEN || Total(c) > bufSize then (ENOMEM, buf)
    else
      var loaded := Slot(c, Total(c)) + buf[Total(c)..];
      (if Validate(loaded, Total(c)) == None then OK else ENOENT, loaded)
  }

  lemma SameWord(s: seq<byte>, t: seq<byte>)
    requires 4 <= |s| && |t| == 4 && s[..4] == t
    ensures FromLe32(s) == FromLe32(t)
  {
    assert s[0] == s[..4][0] && s[1] == s[..4][1] && s[2] == s[..4][2] && s[3] == s[..4][3];
  }

  /** Which answer a load gives. */
  lemma LoadAnswerIff(c: Cells, buf: seq<byte>, bufSize: nat)
    requires 40 <= |buf| && bufSize <= |buf|
    ensures var marked := c[58_720_256..58_720_260] == [73, 79, 84, 86];
      var n: nat := FromLe32(c[58_720_264..58_720_268]);
      var fits := marked && n <= 4_194_272 && 32 + n <= bufSize;
      var r := LoadSpec(c, buf, bufSize);
      && (!marked ==> r == (-2, buf))
      && (marked && !fits ==> r == (-12, buf))
      && (fits ==>
            && r.1 == c[58_720_256..58_720_256 + 32 + n] + buf[32 + n..]
            && r.0 == if Validate(r.1, 32 + n) == None then 0 else -2)
  {
    hide Validate, FromLe32;
    var h := Slot(c, HDR_LEN);
    assert h[..4] == c[58_720_256..58_720_260];
    assert h[8..][..4] == c[58_720_264..58_720_268];
    SameWord(h[8..], c[58_720_264..58_720_268]);
  }

  lemma LoadOk(c: Cells, buf: seq<byte>, bufSize: nat)
    requires 40 <= |buf| && bufSize <= |buf| && LoadSpec(c, buf, bufSize).0 == OK
    ensures HDR_LEN <= Total(c) == HDR_LEN + ModelLen(Slot(c, HDR_LEN)) <= MODEL_MAX_BLOB && Total(c) <= bufSize
    ensures LoadSpec(c, buf, bufSize).1[..Total(c)] == Slot(c, Total(c))
    ensures Slot(c, HDR_LEN)[..4] == MAGIC
  {
    hide Validate, ModelLen;
  }

  // ---------------------------------------------------------------- save and load together

  function Ones(n: nat): seq<byte> {
    seq(n, _ => 255)
  }

  lemma SlotAfter(d: Cells, c: Cells, blob: seq<byte>, p: nat, n: nat)
    requires ProgrammedTo(d, c, blob, p) && n <= |blob| <= SLOT_SIZE
    ensures Slot(d, n) == if n <= p then blob[..n] else blob[..p] + Ones(n - p)
  {
    hide EraseLen;
    EraseLenCovers(|blob|);
    assert |Slot(d, n)| == n;
    forall i | 0 <= i < n ensures Slot(d, n)[i] == if i < p then blob[i] else 255 {
      assert Slot(d, n)[i] == d[SLOT + i];
    }
    if n <= p {
      assert Slot(d, n) == blob[..n];
    } else {
      assert Slot(d, n) == blob[..p] + Ones(n - p);
    }
  }

  /** A validated blob's own account of its length. */
  lemma BlobLength(src: seq<byte>, len: nat)
    requires 40 <= |src| && len <= |src| && Validate(src, len) == None
    ensures HDR_LEN + ModelLen(src) <= len && HDR_LEN + ModelLen(src) <= MODEL_MAX_BLOB
    ensures src[..4] == MAGIC
  {
    hide ModelLen, Crc32;
  }

  lemma HeaderDecides(a: seq<byte>, b: seq<byte>)
    requires |a| >= HDR_LEN && |b| >= HDR_LEN && a[..HDR_LEN] == b[..HDR_LEN]
    ensures a[..4] == b[..4] && ModelLen(a) == ModelLen(b)
  {
    SameFields(a, b);
  }

  /** The flash after `j` driver calls of a save, seen as progress. */
  lemma Progress(c: Cells, blob: seq<byte>, j: nat)
    requires HDR_LEN <= |blob| <= SLOT_SIZE && j <= |Plan(blob)|
    ensures AllFit(Plan(blob)[..j])
    ensures var e := EraseLen(|blob|) / ERASE_BLOCK; var d := Run(c, Plan(blob)[..j]);
      && 0 < e
      && (j == 0 ==> d == c)
      && (0 < j <= e ==> d[SLOT] == 255)
      && (e < j ==> HDR_LEN <= ChunkEnd(|blob|, j - e) && ProgrammedTo(d, c, blob, ChunkEnd(|blob|, j - e)))
  {
    hide Plan;
    PlanLength(blob);
    EraseLenCovers(|blob|);
    var e := EraseLen(|blob|) / ERASE_BLOCK;
    if j <= e {
      AfterErases(c, blob, j);
    } else {
      AfterPrograms(c, blob, j - e);
    }
  }

  /** While the slot's first block is blank there is no model. */
  lemma BlankLoads(d: Cells, buf: seq<byte>, bufSize: nat)
    requires 40 <= |buf| && bufSize <= |buf|
    requires d[SLOT] == 255
    ensures LoadSpec(d, buf, bufSize) == (ENOENT, buf)
  {
    assert Slot(d, HDR_LEN)[..4][0] == 255;
  }

  /**
   A save stopped after any number of driver calls never leaves a mixture of models: if a load then
   succeeds, either nothing was erased yet, or the header is the new one and the payload is a prefix of
   the new payload followed by blank flash.
   */
  lemma InterruptedSave(c: Cells, src: seq<byte>, len: nat, j: nat, buf: seq<byte>, bufSize: nat)
    requires 40 <= |src| && len <= |src| && len <= SLOT_SIZE && Validate(src, len) == None
    requires 40 <= |buf| && bufSize <= |buf|
    requires j <= |Plan(src[..len])|
    ensures AllFit(Plan(src[..len])[..j])
    ensures var d := Run(c, Plan(src[..len])[..j]); var r := LoadSpec(d, buf, bufSize);
      r.0 == OK ==>
        || (j == 0 && d == c)
        || (var e := EraseLen(len) / ERASE_BLOCK; var total := HDR_LEN + ModelLen(src);
            e < j && HDR_LEN <= ChunkEnd(len, j - e) && Total(d) == total <= len
            && var p := ChunkEnd(len, j - e);
            r.1[..total] == if total <= p then src[..total] else src[..p] + Ones(total - p))
  {
    hide Plan, Run, LoadSpec, Validate, ModelLen, Slot, EraseLen;
    var blob := src[..len];
    assert |blob| == len;
    BlobLength(src, len);
    Progress(c, blob, j);
    var d := Run(c, Plan(blob)[..j]);
    var e := EraseLen(len) / ERASE_BLOCK;
    if LoadSpec(d, buf, bufSize).0 == OK && j != 0 {
      if j <= e {
        BlankLoads(d, buf, bufSize);
        assert false;
      } else {
        var p := ChunkEnd(len, j - e);
        LoadOk(d, buf, bufSize);
        SlotAfter(d, c, blob, p, HDR_LEN);
        assert Slot(d, HDR_LEN) == blob[..HDR_LEN] == src[..HDR_LEN];
        HeaderDecides(Slot(d, HDR_LEN), src);
        SlotAfter(d, c, blob, p, HDR_LEN + ModelLen(src));
        assert blob[..HDR_LEN + ModelLen(src)] == src[..HDR_LEN + ModelLen(src)];
        if p < HDR_LEN + ModelLen(src) {
          assert blob[..p] == src[..p];
        }
      }
    }
  }

  /** A valid blob stays valid in another buffer that also shows the flatbuffer tag. */
  lemma ValidateDependsOn(a: seq<byte>, aLen: nat, b: seq<byte>, bLen: nat, n: nat)
    requires 40 <= |a| && aLen <= |a| && 40 <= |b| && bLen <= |b|
    requires n <= |a| && n <= |b| && a[..n] == b[..n]
    requires Validate(a, aLen) == None && n == HDR_LEN + ModelLen(a) <= bLen
    ensures Validate(b, bLen) == if b[HDR_LEN + 4..HDR_LEN + 8] == TFL3 then None else Some(NotFlatbuffer)
    ensures HDR_LEN + 8 <= n ==> b[HDR_LEN + 4..HDR_LEN + 8] == TFL3
  {
    hide Crc32, ModelLen, StoredCrc, FromLe16;
    assert a[..HDR_LEN] == a[..n][..HDR_LEN] == b[..n][..HDR_LEN] == b[..HDR_LEN];
    SameFields(a, b);
    assert a[HDR_LEN..n] == a[..n][HDR_LEN..] == b[..n][HDR_LEN..] == b[HDR_LEN..n];
    if HDR_LEN + 8 <= n {
      assert a[HDR_LEN + 4..HDR_LEN + 8] == a[..n][HDR_LEN + 4..HDR_LEN + 8] == b[HDR_LEN + 4..HDR_LEN + 8];
    }
  }

  /**
   A completed save is what the next load returns.  For a payload of fewer than eight octets the
   validator looks past the payload, into what the load buffer held before: then, and only then, the load
   depends on the flatbuffer tag standing there.
   */
  lemma SaveThenLoad(c: Cells, src: seq<byte>, len: nat, buf: seq<byte>, bufSize: nat)
    requires 40 <= |src| && len <= |src| && len <= SLOT_SIZE && Validate(src, len) == None
    requires 40 <= |buf| && HDR_LEN + ModelLen(src) <= bufSize <= |buf|
    ensures AllFit(Plan(src[..len]))
    ensures var d := Run(c, Plan(src[..len])); var n := HDR_LEN + ModelLen(src);
      && Total(d) == n
      && LoadSpec(d, buf, bufSize).1 == src[..n] + buf[n..]
      && (LoadSpec(d, buf, bufSize).0 == OK <==> (src[..n] + buf[n..])[HDR_LEN + 4..HDR_LEN + 8] == TFL3)
      && (8 <= ModelLen(src) ==> LoadSpec(d, buf, bufSize).0 == OK)
  {
    hide Plan, Run, Validate, ModelLen, Slot, EraseLen;
    var blob := src[..len];
    assert |blob| == len;
    BlobLength(src, len);
    PlanFits(blob);
    PlanLength(blob);
    var k := Chunks(len);
    AfterPrograms(c, blob, k);
    assert Plan(blob)[..|Plan(blob)|] == Plan(blob);
    var d := Run(c, Plan(blob));
    assert ChunkEnd(len, k) == len;
    var n := HDR_LEN + ModelLen(src);
    SlotAfter(d, c, blob, len, HDR_LEN);
    SlotAfter(d, c, blob, len, n);
    assert blob[..HDR_LEN] == src[..HDR_LEN] && blob[..n] == src[..n];
    HeaderDecides(Slot(d, HDR_LEN), src);
    var loaded := src[..n] + buf[n..];
    assert loaded[..n] == src[..n];
    ValidateDependsOn(src, len, loaded, n, n);
  }

  /** An envelope of no payload whose buffer shows the tag just behind it. */
  function TaglessBlob(): (b: seq<byte>)
    ensures |b| == 40
  {
    Header(1, [], Zeros(NAME_LEN)) + Zeros(4) + TFL3
  }

  /** It validates and is stored, and yet a load into a zeroed buffer finds no model. */
  lemma ShortPayloadNotReloaded(c: Cells)
    ensures Validate(TaglessBlob(), 40) == None
    ensures AllFit(Plan(TaglessBlob()[..40]))
    ensures LoadSpec(Run(c, Plan(TaglessBlob()[..40])), Zeros(40), 40).0 == ENOENT
  {
    hide Run, Plan, Crc32, Header;
    var b := TaglessBlob();
    assert b == Header(1, [], Zeros(NAME_LEN)) + (Zeros(4) + TFL3);
    FieldsOfHeader(1, [], Zeros(NAME_LEN), Zeros(4) + TFL3);
    assert b[HDR_LEN..HDR_LEN] == [];
    SaveThenLoad(c, b, 40, Zeros(40), 40);
    assert (b[..HDR_LEN] + Zeros(40)[HDR_LEN..])[HDR_LEN + 4] == 0;
  }

  lemma CrcAgrees(b: seq<byte>, len: nat)
    requires 40 <= |b| && len <= |b| && Validate(b, len) == None
    ensures HDR_LEN + ModelLen(b) <= len
    ensures Crc32(b[HDR_LEN..HDR_LEN + ModelLen(b)]) == StoredCrc(b)
  {
    hide Crc32, ModelLen, StoredCrc, FromLe16;
  }

  lemma TornTail(got: seq<byte>, src: seq<byte>, len: nat, n: nat, p: nat)
    requires 40 <= |src| && len <= |src| && Validate(src, len) == None && n == HDR_LEN + ModelLen(src) <= len
    requires 40 <= |got| && n <= |got| && Validate(got, n) == None
    requires HDR_LEN <= p < n <= p + 4 && got[..n] == src[..p] + Ones(n - p)
    ensures got[..n] == src[..n]
  {
    hide ModelLen, Validate, Crc32, StoredCrc;
    assert forall i :: 0 <= i < p ==> got[i] == got[..n][i] == src[i];
    assert got[..HDR_LEN] == src[..HDR_LEN];
    SameFields(got, src);
    CrcAgrees(got, n);
    CrcAgrees(src, len);
    var a, b := src[HDR_LEN..n], got[HDR_LEN..n];
    assert a[..p - HDR_LEN] == b[..p - HDR_LEN];
    if a != b {
      BurstDetected(a, b, p - HDR_LEN);
    }
    assert src[..n] == src[..HDR_LEN] + a && got[..n] == got[..HDR_LEN] + b;
  }

  lemma LoadValidates(c: Cells, buf: seq<byte>, bufSize: nat)
    requires 40 <= |buf| && bufSize <= |buf| && LoadSpec(c, buf, bufSize).0 == OK
    ensures Validate(LoadSpec(c, buf, bufSize).1, Total(c)) == None
    ensures |LoadSpec(c, buf, bufSize).1| == |buf|
  {
    hide Validate, ModelLen, Slot;
  }

  /**
   A save torn so late that at most four payload octets are missing is never taken for a whole one: a
   load succeeds only if the missing octets are what blank flash reads as.
   */
  lemma TornTailDetected(c: Cells, src: seq<byte>, len: nat, j: nat, buf: seq<byte>, bufSize: nat)
    requires 40 <= |src| && len <= |src| && len <= SLOT_SIZE && Validate(src, len) == None
    requires 40 <= |buf| && bufSize <= |buf|
    requires j <= |Plan(src[..len])|
    requires var e := EraseLen(len) / ERASE_BLOCK; var n := HDR_LEN + ModelLen(src);
      e < j && ChunkEnd(len, j - e) <= n <= ChunkEnd(len, j - e) + 4
    ensures AllFit(Plan(src[..len])[..j])
    ensures var r := LoadSpec(Run(c, Plan(src[..len])[..j]), buf, bufSize); var n := HDR_LEN + ModelLen(src);
      r.0 == OK ==> n <= |r.1| && n <= |src| && r.1[..n] == src[..n]
  {
    hide Plan, Run, LoadSpec, ModelLen, Slot, EraseLen, Validate;
    InterruptedSave(c, src, len, j, buf, bufSize);
    var d := Run(c, Plan(src[..len])[..j]);
    var n := HDR_LEN + ModelLen(src);
    var p := ChunkEnd(len, j - EraseLen(len) / ERASE_BLOCK);
    if LoadSpec(d, buf, bufSize).0 == OK {
      BlobLength(src, len);
      LoadOk(d, buf, bufSize);
      LoadValidates(d, buf, bufSize);
      if p < n {
        TornTail(LoadSpec(d, buf, bufSize).1, src, len, n, p);
      }
    }
  }

  // ---------------------------------------------------------------- the driver and the store

  /** What a look at the status register shows. */
  datatype Poll = Unreadable | Busy | Ready

  /** What the device will do: which commands it takes, and what each look at its status will show. */
  datatype Device = Device(takes: nat -> bool, shows: nat -> Poll)

  function Shown(d: Device, from: nat, k: nat): Poll {
    d.shows(from + k)
  }

  /** After `n` looks at a busy device the next one shows `p`. */
  ghost predicate Settles(d: Device, from: nat, n: nat, p: Poll) {
    Shown(d, from, n) == p && forall k :: 0 <= k < n ==> Shown(d, from, k) == Busy
  }

  /** The octal flash behind its driver. */
  class Flash {
    const cells: array<byte>
    const device: Device
    var commands: nat             // commands given so far
    var looks: nat                // looks at the status register so far
    ghost var failures: seq<int>  // the error of every driver call that failed

    ghost predicate Valid()
      reads this
    {
      cells.Length == FLASH_SIZE
    }

    ghost function Contents(): Cells
      reads this, cells
      requires Valid()
    {
      cells[..]
    }

    constructor (initial: Cells, dev: Device)
      ensures Valid() && fresh(cells) && Contents() == initial && failures == []
      ensures device == dev && commands == 0 && looks == 0
    {
      failures, commands, looks := [], 0, 0;
      device := dev;
      cells := new byte[FLASH_SIZE](i requires 0 <= i < FLASH_SIZE => initial[i]);
      new;
      assert cells[..] == initial;
    }

    /** One erase or program command.  A refused command changes nothing. */
    method Command(op: Op) returns (ok: bool)
      requires Valid() && Fits(op)
      modifies this`failures, this`commands, cells
      ensures Valid() && commands == old(commands) + 1
      ensures ok == device.takes(old(commands))
      ensures ok ==> Contents() == Apply(old(Contents()), op) && failures == old(failures)
      ensures !ok ==> Contents() == old(Contents()) && failures == old(failures) + [-5]
    {
      ok := device.takes(commands);
      commands := commands + 1;
      if !ok {
        failures := failures + [EIO];
        return;
      }
      forall i | op.at <= i < op.at + Size(op) {
        cells[i] := CellAfter(cells[i], op, i);
      }
      assert cells[..] == Apply(old(cells[..]), op);
    }

    /** Polls the status register until the device is idle, at most four million times. */
    method WaitIdle() returns (rc: int)
      requires Valid()
      modifies this`failures, this`looks
      ensures Valid()
      ensures rc == 0 <==> exists n :: 0 <= n < 4_000_000 && Settles(device, old(looks), n, Ready)
      ensures rc == -5 <==> exists n :: 0 <= n < 4_000_000 && Settles(device, old(looks), n, Unreadable)
      ensures rc == -110 <==> forall k :: 0 <= k < 4_000_000 ==> Shown(device, old(looks), k) == Busy
      ensures rc == 0 || rc == -5 || rc == -110
      ensures failures == if rc == 0 then old(failures) else old(failures) + [rc]
    {
      ghost var from := looks;
      for i := 0 to 4_000_000
        invariant failures == old(failures) && looks == from + i
        invariant forall k :: 0 <= k < i ==> Shown(device, from, k) == Busy
      {
        var seen := device.shows(looks);
        assert seen == Shown(device, from, i);
        looks := looks + 1;
        if seen == Unreadable {
          failures := failures + [EIO];
          assert Settles(device, from, i, Unreadable);
          return EIO;
        }
        if seen == Ready {
          assert Settles(device, from, i, Ready);
          return OK;
        }
      }
      failures := failures + [ETIMEDOUT];
      return ETIMEDOUT;
    }
  }

  lemma RunStep(c: Cells, blob: seq<byte>, j: nat)
    requires |blob| <= SLOT_SIZE && j < |Plan(blob)|
    ensures AllFit(Plan(blob)[..j]) && AllFit(Plan(blob)[..j + 1]) && Fits(Plan(blob)[j])
    ensures Run(c, Plan(blob)[..j + 1]) == Apply(Run(c, Plan(blob)[..j]), Plan(blob)[j])
  {
    hide Plan;
    PlanFits(blob);
    assert Plan(blob)[..j + 1] == Plan(blob)[..j] + [Plan(blob)[j]];
    RunOneMore(c, Plan(blob)[..j], Plan(blob)[j]);
  }

  lemma RunNone(c: Cells, blob: seq<byte>)
    requires |blob| <= SLOT_SIZE
    ensures AllFit(Plan(blob)[..0]) && Run(c, Plan(blob)[..0]) == c
  {
  }

  /** Erases the blocks covering the blob: the first part of the plan, as far as the driver goes along. */
  method EraseSlot(f: Flash, ghost blob: seq<byte>, len: nat) returns (rc: int, ghost done: nat)
    requires f.Valid() && |blob| == len <= SLOT_SIZE
    modifies f`failures, f`commands, f`looks, f.cells
    ensures f.Valid() && done <= EraseLen(len) / ERASE_BLOCK
    ensures done <= |Plan(blob)| && AllFit(Plan(blob)[..done])
    ensures f.Contents() == Run(old(f.Contents()), Plan(blob)[..done])
    ensures f.failures == if rc == OK then old(f.failures) else old(f.failures) + [rc]
    ensures rc == OK ==> done == EraseLen(len) / ERASE_BLOCK
  {
    hide Plan, Run, Apply;
    ghost var c := f.Contents();
    var eraseLen := EraseLen(len);
    EraseLenCovers(len);
    PlanLength(blob);
    RunNone(c, blob);
    rc, done := OK, 0;
    var off: nat := 0;
    while rc == OK && off < eraseLen
      invariant f.Valid() && done <= eraseLen / ERASE_BLOCK
      invariant f.failures == if rc == OK then old(f.failures) else old(f.failures) + [rc]
      invariant rc == OK ==> off == done * ERASE_BLOCK
      invariant AllFit(Plan(blob)[..done]) && f.Contents() == Run(c, Plan(blob)[..done])
      decreases if rc == OK then 1 else 0, eraseLen - off
    {
      ErasePrefix(blob, done);
      RunStep(c, blob, done);
      var ok := f.Command(Erase(SLOT + off, ERASE_BLOCK));
      if !ok {
        rc := EIO;
        break;
      }
      done := done + 1;
      rc := f.WaitIdle();
      off := off + ERASE_BLOCK;
    }
  }

  /** Programs the blob in chunks: the rest of the plan. */
  method ProgramSlot(f: Flash, blob: seq<byte>, ghost c: Cells) returns (rc: int, ghost done: nat)
    requires f.Valid() && |blob| <= SLOT_SIZE
    requires AllFit(Plan(blob)[..EraseLen(|blob|) / ERASE_BLOCK])
    requires f.Contents() == Run(c, Plan(blob)[..EraseLen(|blob|) / ERASE_BLOCK])
    modifies f`failures, f`commands, f`looks, f.cells
    ensures f.Valid() && done <= |Plan(blob)| && AllFit(Plan(blob)[..done])
    ensures f.Contents() == Run(c, Plan(blob)[..done])
    ensures f.failures == if rc == OK then old(f.failures) else old(f.failures) + [rc]
    ensures rc == OK ==> done == |Plan(blob)|
  {
    hide Plan, Run, Apply, EraseLen;
    ghost var first := EraseLen(|blob|) / ERASE_BLOCK;
    PlanLength(blob);
    ghost var k := 0;
    rc := OK;
    var off: nat := 0;
    while rc == OK && off < |blob|
      invariant f.Valid() && k <= Chunks(|blob|)
      invariant f.failures == if rc == OK then old(f.failures) else old(f.failures) + [rc]
      invariant rc == OK ==> off == k * PROG_CHUNK
      invariant AllFit(Plan(blob)[..first + k]) && f.Contents() == Run(c, Plan(blob)[..first + k])
      decreases if rc == OK then 1 else 0, |blob| - off
    {
      var n := |blob| - off;
      if n > PROG_CHUNK {
        n := PROG_CHUNK;
      }
      ProgramPrefix(blob, k);
      RunStep(c, blob, first + k);
      assert Chunk(blob, k) == blob[off..off + n];
      var ok := f.Command(Program(SLOT + off, blob[off..off + n]));
      if !ok {
        rc := EIO;
        break;
      }
      k := k + 1;
      rc := f.WaitIdle();
      off := off + PROG_CHUNK;
    }
    done := first + k;
  }

  lemma Complete(c: Cells, blob: seq<byte>)
    requires |blob| <= SLOT_SIZE
    ensures AllFit(Plan(blob)[..|Plan(blob)|])
    ensures Slot(Run(c, Plan(blob)[..|Plan(blob)|]), |blob|) == blob
  {
    hide Plan, Run, EraseLen, Slot;
    PlanLength(blob);
    AfterPrograms(c, blob, Chunks(|blob|));
    SlotAfter(Run(c, Plan(blob)[..|Plan(blob)|]), c, blob, |blob|, |blob|);
    assert blob[..|blob|] == blob;
  }

  /**
   `model_store_save`.  However far it gets, the flash holds what that many calls of the plan make of it;
   it answers 0 exactly when the blob was valid and no driver call failed.
   */
  method Save(f: Flash, src: seq<byte>, len: nat) returns (rc: int, ghost done: nat)
    requires f.Valid() && 40 <= |src| && len <= |src| && len <= SLOT_SIZE
    modifies f`failures, f`commands, f`looks, f.cells
    ensures f.Valid() && done <= |Plan(src[..len])| && AllFit(Plan(src[..len])[..done])
    ensures f.Contents() == Run(old(f.Contents()), Plan(src[..len])[..done])
    ensures Validate(src, len) != None ==> rc == -22 && done == 0 && f.failures == old(f.failures)
    ensures Validate(src, len) == None ==> f.failures == if rc == 0 then old(f.failures) else old(f.failures) + [rc]
    ensures rc == 0 ==> done == |Plan(src[..len])| && f.Contents()[58_720_256..58_720_256 + len] == src[..len]
  {
    hide Plan, Run, EraseLen, Validate;
    var blob := src[..len];
    RunNone(f.Contents(), blob);
    done := 0;
    if Validate(src, len) != None {
      return EINVAL, 0;
    }
    ghost var c := f.Contents();
    rc, done := EraseSlot(f, blob, len);
    if rc == OK {
      rc, done := ProgramSlot(f, blob, c);
    }
    if rc == OK {
      Complete(c, blob);
      if f.cells[SLOT..SLOT + len] != blob {
        rc := EVERIFY;
      }
    }
  }

  /** `model_store_load`. */
  method Load(f: Flash, buf: array<byte>, bufSize: nat) returns (rc: int, outLen: nat)
    requires f.Valid() && 40 <= buf.Length && bufSize <= buf.Length && buf != f.cells
    modifies buf
    ensures (rc, buf[..]) == LoadSpec(f.Contents(), old(buf[..]), bufSize)
    ensures rc == OK ==> outLen == Total(f.Contents())
  {
    hide Validate;
    outLen := 0;
    var header := f.cells[SLOT..SLOT + HDR_LEN];
    if header[..4] != MAGIC {
      return ENOENT, 0;
    }
    var total := (ModelLen(header) + HDR_LEN) % WORD;
    if ModelLen(header) > MODEL_MAX_BLOB - HDR_LEN || total > bufSize {
      return ENOMEM, 0;
    }
    forall i | 0 <= i < total {
      buf[i] := f.cells[SLOT + i];
    }
    assert buf[..] == f.cells[SLOT..SLOT + total] + old(buf[total..]);
    if Validate(buf[..], total) != None {
      return ENOENT, 0;
    }
    return OK, total;
  }

  /** `model_store_erase`: once the driver has gone along, no model is found. */
  method EraseModel(f: Flash) returns (rc: int)
    requires f.Valid()
    modifies f`failures, f`commands, f`looks, f.cells
    ensures f.Valid() && f.failures == if rc == OK then old(f.failures) else old(f.failures) + [rc]
    ensures rc == 0 ==>
      && (forall i :: 0 <= i < FLASH_SIZE ==>
           f.Contents()[i] == if 58_720_256 <= i < 58_724_352 then 255 else old(f.Contents()[i]))
      && forall buf, bufSize: nat :: 40 <= |buf| && bufSize <= |buf| ==>
           LoadSpec(f.Contents(), buf, bufSize) == (ENOENT, buf)
  {
    hide LoadSpec;
    var ok := f.Command(Erase(SLOT, 4096));
    if !ok {
      return EIO;
    }
    rc := f.WaitIdle();
    forall buf, bufSize: nat | 40 <= |buf| && bufSize <= |buf|
      ensures LoadSpec(f.Contents(), buf, bufSize) == (ENOENT, buf)
    {
      BlankLoads(f.Contents(), buf, bufSize);
    }
  }
}
