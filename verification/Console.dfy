/**
 From the UART to a captured PEM: the receive ring (src/console_output/console_output.c), the line reader and
 the capture (src/iotc/iotc_cli.c) together.  The CLI sees of a schedule what the ring handed to it.
 */
module Console {
  import opened Bytes
  import opened RxRing
  import opened PemCapture
  import opened PemRoundTrip

  // ---------------------------------------------------------------- more of the same stream

  lemma {:induction false} NextLineMore(s: seq<byte>, more: seq<byte>, cr: bool, acc: seq<byte>, size: nat, echo: bool)
    requires NextLine(s, cr, acc, size, echo).Line?
    ensures var r := NextLine(s, cr, acc, size, echo);
      NextLine(s + more, cr, acc, size, echo) == Line(r.text, r.rest + more, r.cr)
    decreases |s|
  {
    hide EndMark, Finishes, Typed;
    assert (s + more)[0] == s[0] && (s + more)[1..] == s[1..] + more;
    var c := s[0];
    if Swallowed(c, cr) {
      NextLineMore(s[1..], more, false, acc, size, echo);
    } else if c != CR && c != LF && !Finishes(acc, c, size, echo) {
      NextLineMore(s[1..], more, false, Typed(acc, c, size), size, echo);
    }
  }

  /** A capture that has ended does not depend on what is typed after it. */
  lemma {:induction false} ReadPemMore(s: seq<byte>, more: seq<byte>, cr: bool, st: Capture, kind: seq<byte>)
    requires ReadPem(s, cr, st, kind) != PemResult.Waiting
    ensures ReadPem(s + more, cr, st, kind) ==
      match ReadPem(s, cr, st, kind)
      case Captured(pem, rest, c) => Captured(pem, rest + more, c)
      case Refused(rest, c) => Refused(rest + more, c)
      case Waiting => PemResult.Waiting
    decreases |s|
  {
    hide NextLine, OnLine;
    ReadPemStep(s, cr, st, kind);
    ReadPemStep(s + more, cr, st, kind);
    var r := NextLine(s, cr, [], LINE_MAX, false);
    NextLineMore(s, more, cr, [], LINE_MAX, false);
    var v := OnLine(st, r.text, kind);
    if v.Continue? {
      ReadPemMore(r.rest, more, r.cr, v.st, kind);
    }
  }

  // ---------------------------------------------------------------- a paste over the UART

  /** What is to come of a block that was pasted whole. */
  ghost function BlockResult(begin: Entry, body: seq<Entry>, end: seq<byte>, rest: seq<byte>, kind: seq<byte>)
    : PemResult
  {
    var pem := begin.text + [LF] + Joined(body) + end + [LF];
    if Occurs(begin.text, kind) && |pem| <= PEM_MAX - 2 then Captured(pem, rest, false) else Refused(rest, false)
  }

  lemma PasteSplits(leftOver: bool, junk: seq<Entry>, begin: Entry, body: seq<Entry>, end: seq<byte>, tail: seq<byte>)
    ensures Paste(leftOver, junk, begin, body, end, tail) == Paste(leftOver, junk, begin, body, end, []) + tail
  {
    hide Stream;
    var a, b := Stream(body) + (end + tail), Stream(body) + (end + []);
    assert a == b + tail;
    assert Stream(junk) + (begin.text + Ending(begin.end) + a)
        == Stream(junk) + (begin.text + Ending(begin.end) + b) + tail;
  }

  /** A paste that is not complete yet keeps the capture waiting. */
  lemma PartOfPaste(heard: seq<byte>, leftOver: bool, cr: bool, junk: seq<Entry>, begin: Entry, body: seq<Entry>,
                    end: seq<byte>, kind: seq<byte>)
    requires leftOver ==> cr
    requires Junk(junk) && (junk == [] || junk[0].text != [])
    requires BeginText(begin.text) && Body(body) && EndText(end)
    requires Occurs(begin.text, kind) || !HasCancel(body)
    requires heard < Paste(leftOver, junk, begin, body, end, [])
    ensures ReadPem(heard, cr, START, kind) == PemResult.Waiting
  {
    hide ReadPem, Occurs, HasCancel, Paste, Joined, Junk, Body, BeginText, EndText;
    var whole := Paste(leftOver, junk, begin, body, end, []);
    PasteCaptured(leftOver, cr, junk, begin, body, end, [], kind);
    if ReadPem(heard, cr, START, kind) != PemResult.Waiting {
      var more := whole[|heard|..];
      assert whole == heard + more;
      ReadPemMore(heard, more, cr, START, kind);
      assert false;
    }
  }

  /**
   A paste sent over the UART, with whatever follows it, under any interleaving of the interrupt with the
   reader in which no octet finds 8192 unread: the capture waits until the END marker was handed over, and
   then has captured the block, or refused it, and has taken nothing of what follows.
   */
  lemma PasteThroughRing(events: seq<Event>, timeout: u32, leftOver: bool, cr: bool, junk: seq<Entry>, begin: Entry,
                         body: seq<Entry>, end: seq<byte>, tail: seq<byte>, kind: seq<byte>)
    requires NeverFull(events, timeout)
    requires Received(events) == Paste(leftOver, junk, begin, body, end, tail)
    requires leftOver ==> cr
    requires Junk(junk) && (junk == [] || junk[0].text != [])
    requires BeginText(begin.text) && Body(body) && EndText(end)
    requires Occurs(begin.text, kind) || !HasCancel(body)
    ensures var heard := Heard(After(EMPTY, events, timeout));
      var n := |Paste(leftOver, junk, begin, body, end, [])|;
      ReadPem(heard, cr, START, kind)
      == if |heard| < n then PemResult.Waiting else BlockResult(begin, body, end, heard[n..], kind)
  {
    hide ReadPem, Occurs, HasCancel, Paste, Joined, Junk, Body, BeginText, EndText, After, Received, NeverFull;
    NothingLostIff(events, timeout);
    PasteSplits(leftOver, junk, begin, body, end, tail);
    var heard := Heard(After(EMPTY, events, timeout));
    var whole := Paste(leftOver, junk, begin, body, end, []);
    if |heard| < |whole| {
      assert heard == (whole + tail)[..|heard|] == whole[..|heard|];
      PartOfPaste(heard, leftOver, cr, junk, begin, body, end, kind);
    } else {
      var rest := heard[|whole|..];
      assert heard == whole + rest;
      PasteSplits(leftOver, junk, begin, body, end, rest);
      PasteCaptured(leftOver, cr, junk, begin, body, end, rest, kind);
    }
  }

  /**
   The ring is large enough for a whole paste: if the paste and what was typed around it come to at most 8192
   octets, any schedule, the one in which the CLI is starved till the end included, followed by enough steps
   of the reader, ends in the capture or the refusal of the block.
   */
  lemma StarvedPasteCaptured(events: seq<Event>, timeout: u32, leftOver: bool, cr: bool, junk: seq<Entry>, begin: Entry,
                             body: seq<Entry>, end: seq<byte>, tail: seq<byte>, kind: seq<byte>)
    requires |Paste(leftOver, junk, begin, body, end, tail)| <= RING_SIZE
    requires Received(events) == Paste(leftOver, junk, begin, body, end, tail)
    requires leftOver ==> cr
    requires Junk(junk) && (junk == [] || junk[0].text != [])
    requires BeginText(begin.text) && Body(body) && EndText(end)
    requires Occurs(begin.text, kind) || !HasCancel(body)
    ensures var n := StepsLeft(After(EMPTY, events, timeout));
      && n >= 0
      && var heard := Heard(After(EMPTY, events + Reads(n), timeout));
         ReadPem(heard, cr, START, kind) == BlockResult(begin, body, end, tail, kind)
  {
    hide ReadPem, Occurs, HasCancel, Paste, Joined, Junk, Body, BeginText, EndText, After, Received, NeverFull;
    var q := After(EMPTY, events, timeout);
    var n := StepsLeft(q);
    ShortBurstFits(events, timeout);
    NothingLostIff(events, timeout);
    AfterJoin(EMPTY, events, Reads(n), timeout);
    Drains(q, timeout);
    PasteCaptured(leftOver, cr, junk, begin, body, end, tail, kind);
  }
}
