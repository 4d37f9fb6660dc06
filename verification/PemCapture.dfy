/**
 The CLI's line reader and PEM capture (src/iotc/iotc_cli.c).  A received character stream is cut into
 lines by a reader that remembers a carriage return across calls, and the lines drive the PEM capture.
 A read past the end of the stream waits for ever: it is answered `Blocked`.
 */
module PemCapture {
  import opened Bytes

  const LINE_MAX := 96
  const PEM_MAX := 4096

  const CR: byte := 13
  const LF: byte := 10
  const BS: byte := 8
  const DEL: byte := 0x7F

  const DASHES: seq<byte> := [45, 45, 45, 45, 45]
  const END: seq<byte> := DASHES + [69, 78, 68]              // -----END
  const BEGIN: seq<byte> := DASHES + [66, 69, 71, 73, 78]    // -----BEGIN
  const CANCEL: seq<byte> := [99, 97, 110, 99, 101, 108]     // cancel

  predicate Printable(c: byte) {
    0x20 <= c < 0x7F
  }

  /** strncmp(line, p, strlen(p)) == 0 */
  predicate StartsWith(line: seq<byte>, p: seq<byte>) {
    |p| <= |line| && line[..|p|] == p
  }

  /** strstr(line, kind) != NULL */
  predicate Contains(line: seq<byte>, kind: seq<byte>) {
    StartsWith(line, kind) || (line != [] && Contains(line[1..], kind))
  }

  predicate StandsAt(line: seq<byte>, kind: seq<byte>, i: int) {
    0 <= i && i + |kind| <= |line| && line[i..i + |kind|] == kind
  }

  /** A label stands somewhere in a line. */
  ghost predicate Occurs(line: seq<byte>, kind: seq<byte>) {
    exists i :: StandsAt(line, kind, i)
  }

  lemma StandsBehind(line: seq<byte>, kind: seq<byte>, i: int)
    requires line != []
    ensures StandsAt(line, kind, 0) <==> StartsWith(line, kind)
    ensures i > 0 ==> (StandsAt(line, kind, i) <==> StandsAt(line[1..], kind, i - 1))
  {
    if i > 0 && i + |kind| <= |line| {
      assert line[1..][i - 1..i - 1 + |kind|] == line[i..i + |kind|];
    }
  }

  lemma StandsInside(line: seq<byte>, kind: seq<byte>, i: int)
    requires StandsAt(line, kind, i)
    ensures 0 <= i <= |line|
  {
  }

  lemma ContainsNone(kind: seq<byte>)
    ensures Contains([], kind) <==> Occurs([], kind)
  {
    if StartsWith([], kind) {
      assert StandsAt([], kind, 0);
    }
  }

  /** The recursive search finds a label exactly where it stands in the line. */
  lemma {:induction false} ContainsIff(line: seq<byte>, kind: seq<byte>)
    ensures Contains(line, kind) <==> Occurs(line, kind)
    decreases |line|
  {
    hide StandsAt, StartsWith;
    if line == [] {
      ContainsNone(kind);
    } else {
      ContainsIff(line[1..], kind);
      StandsBehind(line, kind, 0);
      if Occurs(line[1..], kind) {
        var i :| StandsAt(line[1..], kind, i);
        StandsInside(line[1..], kind, i);
        StandsBehind(line, kind, i + 1);
      }
      if Occurs(line, kind) {
        var i :| StandsAt(line, kind, i);
        StandsInside(line, kind, i);
        StandsBehind(line, kind, i);
      }
    }
  }

  /** A complete END marker, which finishes a read without waiting for a line end. */
  predicate EndMark(line: seq<byte>) {
    |line| >= 16 && StartsWith(line, END) && line[|line| - 5..] == DASHES
  }

  /** The texts of the markers. */
  lemma Markers()
    ensures END == Octets("-----END") && BEGIN == Octets("-----BEGIN") && CANCEL == Octets("cancel")
  {
  }

  lemma EndMarkIff(line: seq<byte>)
    ensures EndMark(line) <==>
      && |line| >= 16
      && line[..8] == [45, 45, 45, 45, 45, 69, 78, 68]
      && line[|line| - 5..] == [45, 45, 45, 45, 45]
  {
  }

  // ---------------------------------------------------------------- one line

  /** A line with what is left of the stream, and whether its last character was a carriage return. */
  datatype LineResult = Line(text: seq<byte>, rest: seq<byte>, cr: bool) | Blocked

  /** The line so far after one more character, when that does not finish the line. */
  function Typed(acc: seq<byte>, c: byte, size: nat): seq<byte> {
    if c == BS || c == DEL then (if acc == [] then acc else acc[..|acc| - 1])
    else if Printable(c) && |acc| + 1 < size then acc + [c]
    else acc
  }

  predicate Swallowed(c: byte, cr: bool) {
    c == LF && cr
  }

  predicate Finishes(acc: seq<byte>, c: byte, size: nat, echo: bool) {
    !echo && Printable(c) && |acc| + 1 < size && EndMark(acc + [c])
  }

  /** The next line of a stream, given the line so far. */
  function NextLine(s: seq<byte>, cr: bool, acc: seq<byte>, size: nat, echo: bool): (r: LineResult)
    ensures r.Line? ==> |r.rest| < |s|
    ensures r.Line? && |acc| < size ==> |r.text| < size
    decreases |s|
  {
    if s == [] then Blocked
    else
      var c := s[0];
      if Swallowed(c, cr) then NextLine(s[1..], false, acc, size, echo)
      else if c == CR || c == LF then Line(acc, s[1..], c == CR)
      else if Finishes(acc, c, size, echo) then Line(acc + [c], s[1..], false)
      else NextLine(s[1..], false, Typed(acc, c, size), size, echo)
  }

  /** A backspace or delete takes back the last character. */
  lemma EraseTakesBack(c: byte, k: byte, s: seq<byte>, cr: bool, acc: seq<byte>, size: nat)
    requires 32 <= c <= 126 && (k == 8 || k == 127) && |acc| + 1 < size
    ensures NextLine([c, k] + s, cr, acc, size, true) == NextLine(s, false, acc, size, true)
  {
    var t := [c, k] + s;
    assert t[1..] == [k] + s && t[1..][1..] == s;
    assert (acc + [c])[..|acc|] == acc;
  }

  /** What leaves no mark: other control characters, characters past the end, and erasing nothing. */
  lemma Ignored(c: byte, s: seq<byte>, cr: bool, acc: seq<byte>, size: nat, echo: bool)
    requires c != 10 && c != 13
    requires if c == 8 || c == 127 then acc == [] else c < 32 || c > 126 || |acc| + 1 >= size
    ensures NextLine([c] + s, cr, acc, size, echo) == NextLine(s, false, acc, size, echo)
  {
    assert ([c] + s)[1..] == s;
  }

  /** A line feed is dropped exactly behind a carriage return, and otherwise ends the line. */
  lemma LineFeed(s: seq<byte>, acc: seq<byte>, size: nat, echo: bool)
    ensures NextLine([10] + s, true, acc, size, echo) == NextLine(s, false, acc, size, echo)
    ensures NextLine([10] + s, false, acc, size, echo) == Line(acc, s, false)
    ensures forall cr :: NextLine([13] + s, cr, acc, size, echo) == Line(acc, s, true)
  {
    assert ([10] + s)[1..] == s && ([13] + s)[1..] == s;
  }

  // ---------------------------------------------------------------- the capture

  datatype PemResult = Captured(pem: seq<byte>, rest: seq<byte>, cr: bool)
                     | Refused(rest: seq<byte>, cr: bool)
                     | Waiting

  /** What the capture keeps between lines; `pem` is s_pem[..used]. */
  datatype Capture = Capture(pem: seq<byte>, seen: bool, tooLarge: bool, wrongType: bool)

  const START := Capture([], false, false, false)

  datatype Verdict = Continue(st: Capture) | Accept(pem: seq<byte>) | Abort

  /** What one line does. */
  function OnLine(st: Capture, line: seq<byte>, kind: seq<byte>): (v: Verdict)
    ensures |st.pem| <= PEM_MAX - 2 ==>
      match v
      case Continue(st') => |st'.pem| <= PEM_MAX - 2
      case Accept(pem) => |pem| <= PEM_MAX - 2
      case Abort => true
  {
    if line == [] then (if !st.seen then Abort else Continue(st))
    else if st.pem == [] && line == CANCEL then Abort
    else
      var st1 :=
        if StartsWith(line, BEGIN) then Capture([], true, false, !Contains(line, kind)) else st.(seen := true);
      if !StartsWith(line, BEGIN) && st1.pem == [] && !st1.wrongType then Continue(st1)
      else if st1.wrongType then (if StartsWith(line, END) then Abort else Continue(st1))
      else if st1.tooLarge || |st1.pem| + |line| + 2 >= PEM_MAX then
        (if StartsWith(line, END) then Abort else Continue(st1.(tooLarge := true)))
      else
        var pem := st1.pem + line + [LF];
        if StartsWith(line, END) then Accept(pem) else Continue(st1.(pem := pem))
  }

  function ReadPem(s: seq<byte>, cr: bool, st: Capture, kind: seq<byte>): (r: PemResult)
    ensures |st.pem| <= PEM_MAX - 2 && r.Captured? ==> |r.pem| <= PEM_MAX - 2
    decreases |s|
  {
    match NextLine(s, cr, [], LINE_MAX, false)
    case Blocked => Waiting
    case Line(text, rest, cr') =>
      match OnLine(st, text, kind)
      case Abort => Refused(rest, cr')
      case Accept(pem) => Captured(pem, rest, cr')
      case Continue(st') => ReadPem(rest, cr', st', kind)
  }

  lemma ReadPemStep(s: seq<byte>, cr: bool, st: Capture, kind: seq<byte>)
    ensures var r := NextLine(s, cr, [], LINE_MAX, false); var p := ReadPem(s, cr, st, kind);
      && (r == Blocked ==> p == Waiting)
      && (r.Line? ==>
            var v := OnLine(st, r.text, kind);
            && (v.Abort? ==> p == Refused(r.rest, r.cr))
            && (v.Accept? ==> p == Captured(v.pem, r.rest, r.cr))
            && (v.Continue? ==> p == ReadPem(r.rest, r.cr, v.st, kind)))
  {
    hide NextLine, OnLine;
  }

  // ---------------------------------------------------------------- the methods

  class Cli {
    var input: seq<byte>      // characters still to be received
    var lastWasCr: bool
    const sPem: array<byte>

    ghost predicate Valid()
      reads this
    {
      sPem.Length == PEM_MAX
    }

    constructor (stream: seq<byte>)
      ensures Valid() && input == stream && !lastWasCr && fresh(sPem)
    {
      input, lastWasCr := stream, false;
      sPem := new byte[PEM_MAX];
    }

    /** `prv_read_line`: the length of the line left in buf, or Blocked. */
    method ReadLine(buf: array<byte>, echo: bool) returns (blocked: bool, n: nat)
      requires Valid() && 1 <= buf.Length && buf != sPem
      modifies this`input, this`lastWasCr, buf
      ensures Valid() && n < buf.Length
      ensures var r := NextLine(old(input), old(lastWasCr), [], buf.Length, echo);
        && (blocked <==> r == Blocked)
        && (r.Line? ==> buf[..n] == r.text && buf[n] == 0 && input == r.rest && lastWasCr == r.cr)
    {
      hide EndMark;
      n := 0;
      ghost var goal := NextLine(input, lastWasCr, [], buf.Length, echo);
      while true
        invariant Valid() && n < buf.Length
        invariant NextLine(input, lastWasCr, buf[..n], buf.Length, echo) == goal
        decreases |input|
      {
        if input == [] {
          return true, n;
        }
        var c := input[0];
        ghost var acc := buf[..n];
        var afterCr := lastWasCr;
        input := input[1..];
        lastWasCr := c == CR;
        if c == LF && afterCr {
          continue;
        }
        if c == CR || c == LF {
          buf[n] := 0;
          assert buf[..n] == acc;
          return false, n;
        }
        if c == BS || c == DEL {
          if n > 0 {
            n := n - 1;
            assert buf[..n] == acc[..n];
          }
          continue;
        }
        if Printable(c) && n < buf.Length - 1 {
          buf[n] := c;
          n := n + 1;
          assert buf[..n] == acc + [c];
          if !echo && EndMark(buf[..n]) {
            buf[n] := 0;
            assert buf[..n] == acc + [c];
            return false, n;
          }
        }
      }
    }

    /** Adds a line and its line feed to s_pem[..used]. */
    method Append(used: nat, text: seq<byte>) returns (used': nat)
      requires Valid() && used + |text| + 2 < PEM_MAX
      modifies sPem
      ensures used' == used + |text| + 1
      ensures sPem[..used'] == old(sPem[..used]) + text + [LF] && sPem[used'] == 0
    {
      forall i | 0 <= i < |text| {
        sPem[used + i] := text[i];
      }
      used' := used + |text|;
      assert sPem[..used'] == old(sPem[..used]) + text;
      sPem[used'] := LF;
      used' := used' + 1;
      sPem[used'] := 0;
      assert sPem[..used'] == old(sPem[..used]) + text + [LF];
    }

    /** `prv_read_pem`: the length captured in s_pem, or -1. */
    method CapturePem(kind: seq<byte>) returns (blocked: bool, n: int)
      requires Valid()
      modifies this`input, this`lastWasCr, sPem
      ensures Valid()
      ensures match ReadPem(old(input), old(lastWasCr), START, kind)
        case Waiting => blocked
        case Refused(rest, cr) => !blocked && n == -1 && input == rest && lastWasCr == cr
        case Captured(pem, rest, cr) =>
          && !blocked && n == |pem| <= PEM_MAX - 2
          && sPem[..n] == pem && sPem[n] == 0
          && input == rest && lastWasCr == cr
    {
      hide NextLine, StartsWith, Contains, ReadPem;
      var line := new byte[LINE_MAX];
      var used: nat := 0;
      sPem[0] := 0;
      var seenInput, tooLarge, wrongType := false, false, false;
      ghost var goal := ReadPem(input, lastWasCr, START, kind);
      assert sPem[..used] == [];
      while true
        invariant Valid() && used <= PEM_MAX - 2
        invariant ReadPem(input, lastWasCr, Capture(sPem[..used], seenInput, tooLarge, wrongType), kind) == goal
        decreases |input|
      {
        ghost var st := Capture(sPem[..used], seenInput, tooLarge, wrongType);
        ReadPemStep(input, lastWasCr, st, kind);
        var nothing, len := ReadLine(line, false);
        if nothing {
          return true, -1;
        }
        var text := line[..len];
        if len == 0 {
          if !seenInput {
            return false, -1;
          }
          continue;
        }
        seenInput := true;
        if used == 0 && text == CANCEL {
          return false, -1;
        }
        if StartsWith(text, BEGIN) {
          used := 0;
          tooLarge := false;
          wrongType := !Contains(text, kind);
        } else if used == 0 && !wrongType {
          continue;
        }
        if wrongType {
          if StartsWith(text, END) {
            return false, -1;
          }
          continue;
        }
        if tooLarge || used + len + 2 >= PEM_MAX {
          tooLarge := true;
          if StartsWith(text, END) {
            return false, -1;
          }
          continue;
        }
        used := Append(used, text);
        if StartsWith(text, END) {
          return false, used;
        }
      }
    }
  }
}
