/**
 What the PEM capture makes of a pasted block: for every choice of line ends, after any other lines, and
 with the line feed of the command that started it still to come, the block is captured as its lines; a
 block that is too large or of the wrong type is consumed through its END line.
 */
module PemRoundTrip {
  import opened Bytes
  import opened PemCapture

  datatype LineEnd = ByCr | ByLf | ByCrLf

  datatype Entry = Entry(text: seq<byte>, end: LineEnd)

  function Ending(end: LineEnd): seq<byte> {
    match end
    case ByCr => [CR]
    case ByLf => [LF]
    case ByCrLf => [CR, LF]
  }

  /** The characters a terminal sends for some lines. */
  function Stream(entries: seq<Entry>): seq<byte> {
    if entries == [] then [] else entries[0].text + Ending(entries[0].end) + Stream(entries[1..])
  }

  /** What is captured of them: the lines that are not blank, each with a line feed. */
  function Joined(entries: seq<Entry>): seq<byte> {
    if entries == [] then []
    else (if entries[0].text == [] then [] else entries[0].text + [LF]) + Joined(entries[1..])
  }

  predicate Text(t: seq<byte>) {
    |t| < LINE_MAX && forall i :: 0 <= i < |t| ==> Printable(t[i])
  }

  predicate BodyText(t: seq<byte>) {
    Text(t) && !StartsWith(t, END) && !StartsWith(t, BEGIN)
  }

  /** A line before the block: it may even begin a block that is never ended. */
  predicate JunkText(t: seq<byte>) {
    Text(t) && !StartsWith(t, END) && t != CANCEL
  }

  predicate BeginText(t: seq<byte>) {
    Text(t) && StartsWith(t, BEGIN)
  }

  /** An END line that is not itself cut short by an END marker inside it. */
  predicate EndText(t: seq<byte>) {
    Text(t) && EndMark(t) && forall k :: 0 <= k < |t| ==> !EndMark(t[..k])
  }

  predicate Body(entries: seq<Entry>) {
    forall i :: 0 <= i < |entries| ==> BodyText(entries[i].text)
  }

  predicate Junk(entries: seq<Entry>) {
    forall i :: 0 <= i < |entries| ==> JunkText(entries[i].text)
  }

  predicate HasCancel(entries: seq<Entry>) {
    exists i :: 0 <= i < |entries| && entries[i].text == CANCEL
  }

  // ---------------------------------------------------------------- reading one line

  lemma PrefixStarts(t: seq<byte>, k: nat)
    requires k <= |t| && StartsWith(t[..k], END)
    ensures StartsWith(t, END)
  {
    assert t[..k][..|END|] == t[..|END|];
  }

  lemma NoMarkInside(t: seq<byte>, k: nat)
    requires !StartsWith(t, END) && k <= |t|
    ensures !EndMark(t[..k])
  {
    if EndMark(t[..k]) {
      PrefixStarts(t, k);
    }
  }

  lemma SixthOfEnd(t: seq<byte>)
    requires StartsWith(t, END)
    ensures |t| >= 8 && t[5] == 69
  {
    assert t[5] == t[..8][5] == END[5];
  }

  lemma SixthOfBegin(t: seq<byte>)
    requires StartsWith(t, BEGIN)
    ensures |t| >= 10 && t[5] == 66
  {
    assert t[5] == t[..10][5] == BEGIN[5];
  }

  /** Printable characters up to an END marker are taken as they come. */
  lemma {:induction false} TakeRun(t: seq<byte>, k: nat, more: seq<byte>, cr: bool)
    requires Text(t) && k <= |t|
    requires forall j :: k < j <= |t| ==> !EndMark(t[..j])
    ensures NextLine(t[k..] + more, cr, t[..k], LINE_MAX, false)
         == NextLine(more, if k < |t| then false else cr, t, LINE_MAX, false)
    decreases |t| - k
  {
    hide EndMark;
    if k == |t| {
      assert t[k..] + more == more && t[..k] == t;
    } else {
      var s := t[k..] + more;
      assert s[0] == t[k] && s[1..] == t[k + 1..] + more;
      assert t[..k] + [t[k]] == t[..k + 1];
      assert Printable(t[k]);
      TakeRun(t, k + 1, more, false);
    }
  }

  /** What follows a line, and the carriage-return memory, once its terminator was read. */
  function AfterEnd(end: LineEnd, more: seq<byte>): seq<byte> {
    if end == ByCrLf then [LF] + more else more
  }

  lemma PlainLine(t: seq<byte>)
    requires |t| <= 95 && (forall i :: 0 <= i < |t| ==> 32 <= t[i] <= 126) && !StartsWith(t, END)
    ensures Text(t) && forall j :: 0 < j <= |t| ==> !EndMark(t[..j])
  {
    hide EndMark, StartsWith;
    forall j | 0 < j <= |t| ensures !EndMark(t[..j]) {
      NoMarkInside(t, j);
    }
  }

  lemma TerminatorEnds(t: seq<byte>, end: LineEnd, more: seq<byte>)
    ensures NextLine(Ending(end) + more, false, t, LINE_MAX, false) == Line(t, AfterEnd(end, more), end != ByLf)
  {
    var s := Ending(end) + more;
    assert s[1..] == AfterEnd(end, more);
  }

  lemma ReadEntry(e: Entry, more: seq<byte>, cr: bool)
    requires 1 <= |e.text| <= 95 && (forall i :: 0 <= i < |e.text| ==> 32 <= e.text[i] <= 126)
    requires !StartsWith(e.text, END)
    ensures NextLine(e.text + Ending(e.end) + more, cr, [], LINE_MAX, false)
         == Line(e.text, AfterEnd(e.end, more), e.end != ByLf)
  {
    hide EndMark, NextLine, StartsWith, Text;
    var t := e.text;
    PlainLine(t);
    TakeRun(t, 0, Ending(e.end) + more, cr);
    assert t[0..] + (Ending(e.end) + more) == t + Ending(e.end) + more;
    TerminatorEnds(t, e.end, more);
  }

  lemma ReadBlank(end: LineEnd, more: seq<byte>)
    ensures NextLine(Ending(end) + more, false, [], LINE_MAX, false) == Line([], AfterEnd(end, more), end != ByLf)
    ensures end != ByLf ==>
      NextLine(Ending(end) + more, true, [], LINE_MAX, false) == Line([], AfterEnd(end, more), true)
  {
    var s := Ending(end) + more;
    assert s[1..] == AfterEnd(end, more);
  }

  lemma FinishHere(acc: seq<byte>, c: byte, more: seq<byte>, cr: bool)
    requires |acc| + 1 < LINE_MAX && Printable(c) && EndMark(acc + [c])
    ensures NextLine([c] + more, cr, acc, LINE_MAX, false) == Line(acc + [c], more, false)
  {
    hide EndMark;
    assert ([c] + more)[1..] == more;
  }

  lemma LongMark(t: seq<byte>)
    requires EndMark(t)
    ensures |t| >= 16 && StartsWith(t, END) && !StartsWith(t, BEGIN) && t != CANCEL
  {
    SixthOfEnd(t);
    if StartsWith(t, BEGIN) {
      SixthOfBegin(t);
    }
  }

  /** The END line finishes the read at its marker. */
  lemma ReadEnd(t: seq<byte>, more: seq<byte>, cr: bool)
    requires EndText(t)
    ensures NextLine(t + more, cr, [], LINE_MAX, false) == Line(t, more, false)
  {
    hide EndMark, NextLine;
    var n := |t| - 1;
    LongMark(t);
    var u := t[..n];
    forall j | 0 < j <= n ensures !EndMark(u[..j]) {
      assert u[..j] == t[..j];
    }
    TakeRun(u, 0, [t[n]] + more, cr);
    assert u[0..] + ([t[n]] + more) == t + more;
    assert u + [t[n]] == t;
    FinishHere(u, t[n], more, if 0 < n then false else cr);
  }

  // ---------------------------------------------------------------- skipping a left-over line feed

  /** The reader stands before `more`, or before a line feed it will swallow and then `more`. */
  predicate At(s: seq<byte>, cr: bool, more: seq<byte>) {
    s == more || (cr && s == [LF] + more)
  }

  lemma SwallowLine(more: seq<byte>)
    ensures NextLine([LF] + more, true, [], LINE_MAX, false) == NextLine(more, false, [], LINE_MAX, false)
  {
    assert ([LF] + more)[1..] == more;
  }

  lemma Swallow(more: seq<byte>, st: Capture, kind: seq<byte>)
    ensures ReadPem([LF] + more, true, st, kind) == ReadPem(more, false, st, kind)
  {
    hide NextLine, OnLine, ReadPem;
    SwallowLine(more);
    ReadPemStep([LF] + more, true, st, kind);
    ReadPemStep(more, false, st, kind);
    assert NextLine(more, false, [], LINE_MAX, false).Line? || NextLine(more, false, [], LINE_MAX, false).Blocked?;
    if NextLine(more, false, [], LINE_MAX, false).Line? {
      var v := OnLine(st, NextLine(more, false, [], LINE_MAX, false).text, kind);
      assert v.Abort? || v.Accept? || v.Continue?;
    }
  }

  /** One line of text, whatever terminated the line before it. */
  lemma LineRead(e: Entry, more: seq<byte>, s: seq<byte>, cr: bool, st: Capture, kind: seq<byte>)
    returns (s': seq<byte>, cr': bool)
    requires At(s, cr, e.text + Ending(e.end) + more)
    requires Text(e.text) && !StartsWith(e.text, END) && e.text != []
    ensures At(s', cr', more) && |more| <= |s'|
    ensures var v := OnLine(st, e.text, kind); var p := ReadPem(s, cr, st, kind);
      && (v.Abort? ==> p == Refused(s', cr'))
      && (v.Continue? ==> p == ReadPem(s', cr', v.st, kind))
  {
    hide NextLine, OnLine, ReadPem, StartsWith;
    var line := e.text + Ending(e.end) + more;
    var c := cr;
    if s != line {
      Swallow(line, st, kind);
      c := false;
    }
    ReadEntry(e, more, c);
    ReadPemStep(line, c, st, kind);
    s', cr' := AfterEnd(e.end, more), e.end != ByLf;
  }

  /** A blank line changes nothing once something was typed. */
  lemma BlankRead(end: LineEnd, more: seq<byte>, s: seq<byte>, cr: bool, st: Capture, kind: seq<byte>)
    returns (s': seq<byte>, cr': bool)
    requires At(s, cr, Ending(end) + more) && st.seen
    ensures At(s', cr', more)
    ensures ReadPem(s, cr, st, kind) == ReadPem(s', cr', st, kind)
  {
    hide NextLine, ReadPem;
    var line := Ending(end) + more;
    var c := cr;
    if s != line {
      Swallow(line, st, kind);
      c := false;
    }
    if c && end == ByLf {
      Swallow(more, st, kind);
      s', cr' := more, false;
    } else {
      ReadBlank(end, more);
      ReadPemStep(line, c, st, kind);
      s', cr' := AfterEnd(end, more), end != ByLf;
    }
  }

  lemma EndRead(t: seq<byte>, more: seq<byte>, s: seq<byte>, cr: bool, st: Capture, kind: seq<byte>)
    requires At(s, cr, t + more) && EndText(t)
    ensures var v := OnLine(st, t, kind); var p := ReadPem(s, cr, st, kind);
      && (v.Abort? ==> p == Refused(more, false))
      && (v.Accept? ==> p == Captured(v.pem, more, false))
  {
    hide NextLine, OnLine, ReadPem, EndMark;
    var c := cr;
    if s != t + more {
      Swallow(t + more, st, kind);
      c := false;
    }
    ReadEnd(t, more, c);
    ReadPemStep(t + more, c, st, kind);
  }

  lemma StreamSplit(entries: seq<Entry>, more: seq<byte>)
    requires entries != []
    ensures Stream(entries) + more
         == entries[0].text + Ending(entries[0].end) + (Stream(entries[1..]) + more)
  {
  }

  // ---------------------------------------------------------------- a block of the right type

  predicate Inside(st: Capture) {
    st.pem != [] && st.seen && !st.wrongType && |st.pem| <= PEM_MAX - 2
  }

  /** The verdict on a block, from inside it. */
  function Outcome(st: Capture, entries: seq<Entry>, end: seq<byte>, tail: seq<byte>): PemResult {
    var pem := st.pem + Joined(entries) + end + [LF];
    if !st.tooLarge && |pem| <= PEM_MAX - 2 then Captured(pem, tail, false) else Refused(tail, false)
  }

  lemma InsideLine(st: Capture, t: seq<byte>, kind: seq<byte>)
    requires Inside(st) && t != [] && BodyText(t)
    ensures OnLine(st, t, kind)
         == Continue(if st.tooLarge || |st.pem| + |t| + 2 >= PEM_MAX then st.(tooLarge := true)
                     else st.(pem := st.pem + t + [LF]))
  {
  }

  lemma InsideEnd(st: Capture, t: seq<byte>, kind: seq<byte>)
    requires Inside(st) && EndText(t)
    ensures OnLine(st, t, kind)
         == if st.tooLarge || |st.pem| + |t| + 2 >= PEM_MAX then Abort else Accept(st.pem + t + [LF])
  {
    LongMark(t);
  }

  lemma OutcomeStep(st: Capture, entries: seq<Entry>, end: seq<byte>, tail: seq<byte>)
    requires entries != []
    ensures entries[0].text == [] ==> Outcome(st, entries, end, tail) == Outcome(st, entries[1..], end, tail)
    ensures entries[0].text != [] ==>
      Outcome(st, entries, end, tail)
      == Outcome(if st.tooLarge || |st.pem| + |entries[0].text| + 2 >= PEM_MAX then st.(tooLarge := true)
                 else st.(pem := st.pem + entries[0].text + [LF]), entries[1..], end, tail)
  {
    var t := entries[0].text;
    if t == [] {
      assert Joined(entries) == Joined(entries[1..]);
    } else {
      assert st.pem + Joined(entries) + end + [LF] == (st.pem + t + [LF]) + Joined(entries[1..]) + end + [LF];
    }
  }

  lemma BodyIsPlain(t: seq<byte>)
    requires BodyText(t)
    ensures Text(t) && !StartsWith(t, END) && !StartsWith(t, BEGIN)
  {
  }

  lemma NoEntries(more: seq<byte>)
    ensures Stream([]) + more == more
  {
  }

  lemma OutcomeNone(st: Capture, end: seq<byte>, tail: seq<byte>)
    ensures Outcome(st, [], end, tail)
         == if !st.tooLarge && |st.pem| + |end| + 1 <= PEM_MAX - 2 then Captured(st.pem + end + [LF], tail, false)
            else Refused(tail, false)
  {
    assert st.pem + [] + end + [LF] == st.pem + end + [LF];
  }

  lemma {:induction false} CaptureBlock(entries: seq<Entry>, end: seq<byte>, tail: seq<byte>,
                                        s: seq<byte>, cr: bool, st: Capture, kind: seq<byte>)
    requires Inside(st) && Body(entries) && EndText(end)
    requires At(s, cr, Stream(entries) + (end + tail))
    ensures ReadPem(s, cr, st, kind) == Outcome(st, entries, end, tail)
    decreases |entries|
  {
    hide ReadPem, OnLine, Outcome, StartsWith, EndMark, Stream;
    if entries == [] {
      NoEntries(end + tail);
      EndRead(end, tail, s, cr, st, kind);
      InsideEnd(st, end, kind);
      OutcomeNone(st, end, tail);
    } else {
      var t := entries[0].text;
      var more := Stream(entries[1..]) + (end + tail);
      StreamSplit(entries, end + tail);
      OutcomeStep(st, entries, end, tail);
      if t == [] {
        assert t + Ending(entries[0].end) == Ending(entries[0].end);
        var s', cr' := BlankRead(entries[0].end, more, s, cr, st, kind);
        CaptureBlock(entries[1..], end, tail, s', cr', st, kind);
      } else {
        BodyIsPlain(t);
        var s', cr' := LineRead(entries[0], more, s, cr, st, kind);
        InsideLine(st, t, kind);
        var st' := OnLine(st, t, kind).st;
        CaptureBlock(entries[1..], end, tail, s', cr', st', kind);
      }
    }
  }

  // ---------------------------------------------------------------- a block of the wrong type

  const WRONG := Capture([], true, false, true)

  lemma WrongLine(t: seq<byte>, kind: seq<byte>)
    requires t != [] && BodyText(t)
    ensures OnLine(WRONG, t, kind) == if t == CANCEL then Abort else Continue(WRONG)
  {
  }

  lemma WrongEnd(t: seq<byte>, kind: seq<byte>)
    requires EndText(t)
    ensures OnLine(WRONG, t, kind) == Abort
  {
    LongMark(t);
  }

  lemma CancelSplit(entries: seq<Entry>)
    requires entries != []
    ensures HasCancel(entries) <==> entries[0].text == CANCEL || HasCancel(entries[1..])
  {
    if HasCancel(entries) {
      var i :| 0 <= i < |entries| && entries[i].text == CANCEL;
      if i > 0 {
        assert entries[1..][i - 1].text == CANCEL;
      }
    }
    if HasCancel(entries[1..]) {
      var i :| 0 <= i < |entries[1..]| && entries[1..][i].text == CANCEL;
      assert entries[i + 1].text == CANCEL;
    }
  }

  /**
   A block of the wrong type is refused, and consumed through its END line exactly when none of its lines
   reads `cancel`: that line ends the capture early and leaves the rest of the paste to the prompt.
   */
  lemma {:induction false} RefuseBlock(entries: seq<Entry>, end: seq<byte>, tail: seq<byte>,
                                       s: seq<byte>, cr: bool, kind: seq<byte>)
    requires Body(entries) && EndText(end)
    requires At(s, cr, Stream(entries) + (end + tail))
    ensures ReadPem(s, cr, WRONG, kind).Refused?
    ensures !HasCancel(entries) ==> ReadPem(s, cr, WRONG, kind) == Refused(tail, false)
    ensures HasCancel(entries) ==> |ReadPem(s, cr, WRONG, kind).rest| > |tail|
    decreases |entries|
  {
    hide ReadPem, OnLine, StartsWith, EndMark, Stream;
    if entries == [] {
      NoEntries(end + tail);
      EndRead(end, tail, s, cr, WRONG, kind);
      WrongEnd(end, kind);
    } else {
      var t := entries[0].text;
      var more := Stream(entries[1..]) + (end + tail);
      StreamSplit(entries, end + tail);
      CancelSplit(entries);
      if t == [] {
        assert t + Ending(entries[0].end) == Ending(entries[0].end);
        var s', cr' := BlankRead(entries[0].end, more, s, cr, WRONG, kind);
        RefuseBlock(entries[1..], end, tail, s', cr', kind);
      } else {
        BodyIsPlain(t);
        var s', cr' := LineRead(entries[0], more, s, cr, WRONG, kind);
        WrongLine(t, kind);
        if t == CANCEL {
          LongMark(end);
        } else {
          RefuseBlock(entries[1..], end, tail, s', cr', kind);
        }
      }
    }
  }

  // ---------------------------------------------------------------- lines before the block

  lemma JunkIsPlain(t: seq<byte>)
    requires JunkText(t)
    ensures Text(t) && !StartsWith(t, END) && t != CANCEL
  {
  }

  lemma JunkLine(st: Capture, t: seq<byte>, kind: seq<byte>)
    requires t != [] && JunkText(t)
    ensures OnLine(st, t, kind).Continue? && OnLine(st, t, kind).st.seen
    ensures st.pem == [] && !StartsWith(t, BEGIN) ==> OnLine(st, t, kind).st.pem == []
  {
  }

  /** Other lines before the block never end the capture. */
  lemma {:induction false} SkipJunk(entries: seq<Entry>, more: seq<byte>, s: seq<byte>, cr: bool,
                                    st: Capture, kind: seq<byte>)
    returns (s': seq<byte>, cr': bool, st': Capture)
    requires Junk(entries) && (st.seen || entries == [] || entries[0].text != [])
    requires At(s, cr, Stream(entries) + more)
    ensures At(s', cr', more) && ReadPem(s, cr, st, kind) == ReadPem(s', cr', st', kind)
    ensures st.pem == [] && (forall i :: 0 <= i < |entries| ==> !StartsWith(entries[i].text, BEGIN)) ==> st'.pem == []
    decreases |entries|
  {
    hide ReadPem, OnLine, StartsWith, Stream, JunkText;
    if entries == [] {
      NoEntries(more);
      s', cr', st' := s, cr, st;
    } else {
      var t := entries[0].text;
      var rest := Stream(entries[1..]) + more;
      StreamSplit(entries, more);
      st' := st;
      if t == [] {
        assert t + Ending(entries[0].end) == Ending(entries[0].end);
        s', cr' := BlankRead(entries[0].end, rest, s, cr, st, kind);
      } else {
        JunkIsPlain(t);
        s', cr' := LineRead(entries[0], rest, s, cr, st, kind);
        JunkLine(st, t, kind);
        st' := OnLine(st, t, kind).st;
      }
      s', cr', st' := SkipJunk(entries[1..], more, s', cr', st', kind);
    }
  }

  // ---------------------------------------------------------------- the whole paste

  lemma BeginNotEnd(t: seq<byte>)
    requires StartsWith(t, BEGIN)
    ensures t != [] && !StartsWith(t, END) && t != CANCEL
  {
    SixthOfBegin(t);
    if StartsWith(t, END) {
      SixthOfEnd(t);
    }
  }

  /** A BEGIN line starts a capture afresh, whatever was there. */
  lemma BeginLine(t: seq<byte>, st: Capture, kind: seq<byte>)
    requires BeginText(t)
    ensures t != [] && !StartsWith(t, END)
    ensures OnLine(st, t, kind)
         == Continue(if Contains(t, kind) then Capture(t + [LF], true, false, false) else WRONG)
  {
    hide Contains;
    BeginNotEnd(t);
    assert [] + t + [LF] == t + [LF];
  }

  function LeftOver(leftOver: bool): seq<byte> {
    if leftOver then [LF] else []
  }

  /**
   The characters of a paste: the line feed left over from the command line, when its carriage return
   came last; any other lines; the block; and what follows its END marker.
   */
  function Paste(leftOver: bool, junk: seq<Entry>, begin: Entry, body: seq<Entry>,
                 end: seq<byte>, tail: seq<byte>): seq<byte> {
    LeftOver(leftOver) + (Stream(junk) + (begin.text + Ending(begin.end) + (Stream(body) + (end + tail))))
  }

  /** What a capture of the paste must return. */
  lemma PasteCaptured(leftOver: bool, cr: bool, junk: seq<Entry>, begin: Entry, body: seq<Entry>,
                      end: seq<byte>, tail: seq<byte>, kind: seq<byte>)
    requires leftOver ==> cr
    requires Junk(junk) && (junk == [] || junk[0].text != [])
    requires BeginText(begin.text) && Body(body) && EndText(end)
    ensures var r := ReadPem(Paste(leftOver, junk, begin, body, end, tail), cr, START, kind);
      var pem := begin.text + [LF] + Joined(body) + end + [LF];
      && (Occurs(begin.text, kind) ==>
            r == if |pem| <= PEM_MAX - 2 then Captured(pem, tail, false) else Refused(tail, false))
      && (!Occurs(begin.text, kind) ==>
            && r.Refused?
            && (r == Refused(tail, false) <==> !HasCancel(body))
            && (r.rest == tail <==> !HasCancel(body)))
  {
    hide ReadPem, OnLine, StartsWith, EndMark, Stream, Contains, HasCancel, Occurs;
    var inner := Stream(body) + (end + tail);
    var block := begin.text + Ending(begin.end) + inner;
    var s := Paste(leftOver, junk, begin, body, end, tail);
    assert !leftOver ==> s == Stream(junk) + block;
    var s1, cr1, st1 := SkipJunk(junk, block, s, cr, START, kind);
    BeginLine(begin.text, st1, kind);
    ContainsIff(begin.text, kind);
    var s2, cr2 := LineRead(begin, inner, s1, cr1, st1, kind);
    if Contains(begin.text, kind) {
      CaptureBlock(body, end, tail, s2, cr2, Capture(begin.text + [LF], true, false, false), kind);
    } else {
      RefuseBlock(body, end, tail, s2, cr2, kind);
    }
  }

  // ---------------------------------------------------------------- cancelling

  lemma CancelPlain()
    ensures Text(CANCEL) && !StartsWith(CANCEL, END) && CANCEL != []
  {
  }

  /** `cancel` before any block gives up, and what follows its line is left alone. */
  lemma CancelGivesUp(leftOver: bool, cr: bool, junk: seq<Entry>, end: LineEnd, tail: seq<byte>, kind: seq<byte>)
    requires leftOver ==> cr
    requires Junk(junk) && (junk == [] || junk[0].text != [])
    requires forall i :: 0 <= i < |junk| ==> !StartsWith(junk[i].text, BEGIN)
    ensures var r := ReadPem(LeftOver(leftOver) + (Stream(junk) + (CANCEL + Ending(end) + tail)), cr, START, kind);
      r.Refused? && At(r.rest, r.cr, tail)
  {
    hide ReadPem, StartsWith, EndMark, Stream;
    var line := CANCEL + Ending(end) + tail;
    var s := LeftOver(leftOver) + (Stream(junk) + line);
    assert !leftOver ==> s == Stream(junk) + line;
    var s1, cr1, st1 := SkipJunk(junk, line, s, cr, START, kind);
    CancelPlain();
    var s2, cr2 := LineRead(Entry(CANCEL, end), tail, s1, cr1, st1, kind);
    assert OnLine(st1, CANCEL, kind) == Abort;
  }

  /** So does a blank line before anything was typed. */
  lemma BlankGivesUp(leftOver: bool, cr: bool, end: LineEnd, tail: seq<byte>, kind: seq<byte>)
    requires leftOver ==> cr
    requires cr ==> leftOver || end != ByLf
    ensures var r := ReadPem(LeftOver(leftOver) + (Ending(end) + tail), cr, START, kind);
      r.Refused? && At(r.rest, r.cr, tail)
  {
    hide ReadPem, NextLine;
    var line := Ending(end) + tail;
    var s := LeftOver(leftOver) + line;
    if leftOver {
      Swallow(line, START, kind);
    } else {
      assert s == line;
    }
    var c := !leftOver && cr;
    ReadBlank(end, tail);
    ReadPemStep(line, c, START, kind);
  }

  // ---------------------------------------------------------------- an END line without a block

  /** An END line outside a block is passed over. */
  lemma StrayEnd(t: seq<byte>, more: seq<byte>, cr: bool, st: Capture, kind: seq<byte>)
    requires EndText(t) && st.pem == [] && !st.wrongType
    ensures ReadPem(t + more, cr, st, kind) == ReadPem(more, false, st.(seen := true), kind)
  {
    hide ReadPem, NextLine, EndMark;
    ReadEnd(t, more, cr);
    ReadPemStep(t + more, cr, st, kind);
    LongMark(t);
  }

  // ---------------------------------------------------------------- the two real labels

  lemma NoSuch(line: seq<byte>, kind: seq<byte>)
    requires |kind| >= 2 && forall i :: 0 <= i < |line| - 1 ==> line[i] != kind[0] || line[i + 1] != kind[1]
    ensures !Occurs(line, kind)
  {
    forall i ensures !StandsAt(line, kind, i) {
      if 0 <= i && i + |kind| <= |line| {
        assert line[i..i + |kind|][0] == line[i] && line[i..i + |kind|][1] == line[i + 1];
      }
    }
  }

  lemma Stands(line: seq<byte>, kind: seq<byte>, i: nat)
    requires i + |kind| <= |line| && line[i..i + |kind|] == kind
    ensures Occurs(line, kind)
  {
    assert StandsAt(line, kind, i);
  }

  /** The lines around a block with a label. */
  function BeginOf(name: seq<byte>): seq<byte> {
    BEGIN + [32] + name + DASHES
  }

  function EndOf(name: seq<byte>): seq<byte> {
    END + [32] + name + DASHES
  }

  predicate Label(name: seq<byte>) {
    2 <= |name| <= 79 && forall i :: 0 <= i < |name| ==> Printable(name[i]) && name[i] != 45
  }

  /** They begin and end a capture, and the END line is not cut short. */
  lemma LabelledLines(name: seq<byte>)
    requires Label(name)
    ensures BeginText(BeginOf(name)) && EndText(EndOf(name))
  {
    var b, e := BeginOf(name), EndOf(name);
    assert b[..10] == BEGIN && e[..8] == END && e[|e| - 5..] == DASHES;
    forall k | 0 <= k < |e| ensures !EndMark(e[..k]) {
      if 16 <= k {
        assert e[k - 5] == name[k - 14] && e[..k][k - 5..][0] == e[k - 5];
      }
    }
  }

  lemma OctetsJoin(a: string, b: string)
    ensures Octets(a + b) == Octets(a) + Octets(b)
  {
  }

  lemma MarkerTexts()
    ensures Octets("-----BEGIN ") == BEGIN + [32] && Octets("-----END ") == END + [32] && Octets("-----") == DASHES
  {
  }

  lemma LinesOf(name: string)
    ensures Octets("-----BEGIN " + name + "-----") == BeginOf(Octets(name))
    ensures Octets("-----END " + name + "-----") == EndOf(Octets(name))
  {
    hide Octets;
    MarkerTexts();
    OctetsJoin("-----BEGIN ", name);
    OctetsJoin("-----BEGIN " + name, "-----");
    OctetsJoin("-----END ", name);
    OctetsJoin("-----END " + name, "-----");
  }

  lemma LabelText(name: string)
    requires 2 <= |name| <= 79 && forall i :: 0 <= i < |name| ==> ' ' <= name[i] <= '~' && name[i] != '-'
    ensures Label(Octets(name))
  {
  }

  lemma OwnLabel(name: seq<byte>)
    ensures Occurs(BeginOf(name), name)
  {
    var t := BeginOf(name);
    assert t[11..11 + |name|] == name;
    Stands(t, name, 11);
  }

  lemma CertificateIsNoKey()
    ensures !Occurs(BeginOf(Octets("CERTIFICATE")), Octets("PRIVATE KEY"))
  {
    hide Occurs;
    NoSuch(BeginOf(Octets("CERTIFICATE")), Octets("PRIVATE KEY"));
  }

  lemma KeyIsNoCertificate()
    ensures !Occurs(BeginOf(Octets("PRIVATE KEY")), Octets("CERTIFICATE"))
  {
    hide Occurs;
    NoSuch(BeginOf(Octets("PRIVATE KEY")), Octets("CERTIFICATE"));
  }

  /** What the two commands make of the two kinds of block. */
  lemma RealLabels(cr: bool, ends: LineEnd, body: seq<Entry>, tail: seq<byte>)
    requires Body(body)
    ensures var begin := Octets("-----BEGIN " + "CERTIFICATE" + "-----");
      var end := Octets("-----END " + "CERTIFICATE" + "-----");
      var s := Paste(false, [], Entry(begin, ends), body, end, tail);
      var pem := begin + [LF] + Joined(body) + end + [LF];
      && (|pem| <= 4094 ==> ReadPem(s, cr, START, Octets("CERTIFICATE")) == Captured(pem, tail, false))
      && ReadPem(s, cr, START, Octets("PRIVATE KEY")).Refused?
    ensures var begin := Octets("-----BEGIN " + "PRIVATE KEY" + "-----");
      var end := Octets("-----END " + "PRIVATE KEY" + "-----");
      var s := Paste(false, [], Entry(begin, ends), body, end, tail);
      var pem := begin + [LF] + Joined(body) + end + [LF];
      && (|pem| <= 4094 ==> ReadPem(s, cr, START, Octets("PRIVATE KEY")) == Captured(pem, tail, false))
      && ReadPem(s, cr, START, Octets("CERTIFICATE")).Refused?
  {
    hide ReadPem, Occurs, BeginText, EndText, Paste, Joined, HasCancel, Octets, Body, BeginOf, EndOf, Label;
    LinesOf("CERTIFICATE");
    LinesOf("PRIVATE KEY");
    LabelText("CERTIFICATE");
    LabelText("PRIVATE KEY");
    var cert, key := Octets("CERTIFICATE"), Octets("PRIVATE KEY");
    LabelledLines(cert);
    LabelledLines(key);
    OwnLabel(cert);
    OwnLabel(key);
    CertificateIsNoKey();
    KeyIsNoCertificate();
    PasteCaptured(false, cr, [], Entry(BeginOf(cert), ends), body, EndOf(cert), tail, cert);
    PasteCaptured(false, cr, [], Entry(BeginOf(cert), ends), body, EndOf(cert), tail, key);
    PasteCaptured(false, cr, [], Entry(BeginOf(key), ends), body, EndOf(key), tail, cert);
    PasteCaptured(false, cr, [], Entry(BeginOf(key), ends), body, EndOf(key), tail, key);
  }
}
