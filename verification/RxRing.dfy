/**
 The interrupt-fed receive ring of the console (src/console_output/console_output.c): free-running 32-bit
 indices over 8192 octets, filled by the UART interrupt and drained by the CLI task.  The interrupt may
 come between any two steps of the reader.
 */
module RxRing {
  import opened Bytes
  import opened Wrappers

  const RING_SIZE := 8192
  const FOREVER: u32 := 0xFFFFFFFF

  /** Where the reader stands inside `console_read_char`. */
  datatype Reader = Idle
                  | Waiting(waited: u32)
                  | Seen
                  | Fetched(octet: byte)

  /** What may happen next: a received octet, or one step of the reader. */
  datatype Event = Receive(octet: byte) | Read

  // ---------------------------------------------------------------- the queue the ring stands for

  /** A bounded queue: all octets ever let in, how many of them were handed out, and the reader. */
  datatype Queue = Queue(accepted: seq<byte>, delivered: nat, reader: Reader, timeouts: nat)

  const EMPTY := Queue([], 0, Idle, 0)

  function Unread(q: Queue): int {
    |q.accepted| - q.delivered
  }

  /** What the caller has been handed so far. */
  function Heard(q: Queue): seq<byte>
    requires q.delivered <= |q.accepted|
  {
    q.accepted[..q.delivered]
  }

  ghost predicate QueueOk(q: Queue, timeout: u32) {
    && 0 <= Unread(q) <= RING_SIZE
    && (q.reader.Waiting? ==> q.reader.waited % 2 == 0)
    && (q.reader.Seen? ==> 0 < Unread(q))
    && (q.reader.Fetched? ==> 0 < Unread(q) && q.reader.octet == q.accepted[q.delivered])
    && (timeout == FOREVER ==> q.timeouts == 0)
  }

  /** An octet that finds the queue full is lost. */
  function Arrive(q: Queue, octet: byte): Queue {
    if Unread(q) == RING_SIZE then q else q.(accepted := q.accepted + [octet])
  }

  function Look(q: Queue, waited: u32, timeout: u32): Queue {
    if Unread(q) > 0 then q.(reader := Seen)
    else if waited >= timeout then q.(reader := Idle, timeouts := q.timeouts + 1)
    else q.(reader := Waiting((waited + 10) % WORD))
  }

  function ReadStep(q: Queue, timeout: u32): Queue
    requires QueueOk(q, timeout)
  {
    match q.reader
    case Idle => Look(q, 0, timeout)
    case Waiting(waited) => Look(q, waited, timeout)
    case Seen => q.(reader := Fetched(q.accepted[q.delivered]))
    case Fetched(_) => q.(delivered := q.delivered + 1, reader := Idle)
  }

  function Step(q: Queue, e: Event, timeout: u32): (r: Queue)
    requires QueueOk(q, timeout)
    ensures QueueOk(r, timeout)
    ensures q.accepted <= r.accepted && q.delivered <= r.delivered
  {
    match e
    case Receive(octet) => Arrive(q, octet)
    case Read => ReadStep(q, timeout)
  }

  /** The queue after a schedule. */
  function After(q: Queue, events: seq<Event>, timeout: u32): (r: Queue)
    requires QueueOk(q, timeout)
    ensures QueueOk(r, timeout)
  {
    if events == [] then q
    else Step(After(q, events[..|events| - 1], timeout), events[|events| - 1], timeout)
  }

  /** The octets received in a schedule. */
  function Received(events: seq<Event>): seq<byte> {
    if events == [] then []
    else
      var r := Received(events[..|events| - 1]);
      if events[|events| - 1].Receive? then r + [events[|events| - 1].octet] else r
  }

  // ---------------------------------------------------------------- what the queue keeps

  lemma {:induction false} AfterJoin(q: Queue, a: seq<Event>, b: seq<Event>, timeout: u32)
    requires QueueOk(q, timeout)
    ensures After(q, a + b, timeout) == After(After(q, a, timeout), b, timeout)
    decreases |b|
  {
    hide Step;
    if b == [] {
      assert a + b == a;
    } else {
      AfterJoin(q, a, b[..|b| - 1], timeout);
      assert (a + b)[..|a + b| - 1] == a + b[..|b| - 1];
    }
  }

  /** Octets stay where they were let in. */
  lemma {:induction false} AcceptedGrows(q: Queue, events: seq<Event>, timeout: u32)
    requires QueueOk(q, timeout)
    ensures q.accepted <= After(q, events, timeout).accepted
    ensures q.delivered <= After(q, events, timeout).delivered
    decreases |events|
  {
    hide Step;
    if events != [] {
      AcceptedGrows(q, events[..|events| - 1], timeout);
    }
  }

  /**
   An octet is lost exactly when 8192 are unread as it arrives.  Then the schedule goes on as if it had never
   been sent; otherwise it stays at its place among the accepted.
   */
  lemma LostIffFull(events: seq<Event>, i: nat, timeout: u32)
    requires i < |events| && events[i].Receive?
    ensures var before := After(EMPTY, events[..i], timeout); var end := After(EMPTY, events, timeout);
      if Unread(before) == 8192 then end == After(EMPTY, events[..i] + events[i + 1..], timeout)
      else |before.accepted| < |end.accepted| && end.accepted[|before.accepted|] == events[i].octet
  {
    var before := After(EMPTY, events[..i], timeout);
    var rest := events[i + 1..];
    assert events == events[..i + 1] + rest;
    AfterJoin(EMPTY, events[..i + 1], rest, timeout);
    AfterJoin(EMPTY, events[..i], rest, timeout);
    assert events[..i + 1][..i] == events[..i];
    AcceptedGrows(After(EMPTY, events[..i + 1], timeout), rest, timeout);
  }

  /** No octet of the schedule arrives while 8192 are unread. */
  ghost predicate NeverFull(events: seq<Event>, timeout: u32) {
    forall i :: 0 <= i < |events| && events[i].Receive? ==> Unread(After(EMPTY, events[..i], timeout)) < RING_SIZE
  }

  /** How many octets of a schedule find the queue full. */
  ghost function Overruns(events: seq<Event>, timeout: u32): nat {
    if events == [] then 0
    else
      var before := events[..|events| - 1];
      Overruns(before, timeout)
      + (if events[|events| - 1].Receive? && Unread(After(EMPTY, before, timeout)) == RING_SIZE then 1 else 0)
  }

  lemma ReadAccepts(q: Queue, timeout: u32)
    requires QueueOk(q, timeout)
    ensures ReadStep(q, timeout).accepted == q.accepted
  {
  }

  /** Every received octet was handed out, is unread, or arrived while 8192 were unread. */
  lemma {:induction false} Conservation(events: seq<Event>, timeout: u32)
    ensures var q := After(EMPTY, events, timeout);
      |Received(events)| == q.delivered + Unread(q) + Overruns(events, timeout)
    ensures Overruns(events, timeout) == 0 <==> NeverFull(events, timeout)
  {
    hide ReadStep;
    if events != [] {
      var before := events[..|events| - 1];
      Conservation(before, timeout);
      assert forall i :: 0 <= i < |before| ==> events[..i] == before[..i] && events[i] == before[i];
      var q := After(EMPTY, before, timeout);
      if events[|events| - 1].Read? {
        ReadAccepts(q, timeout);
      }
      if NeverFull(before, timeout) && !NeverFull(events, timeout) {
        var i :| 0 <= i < |events| && events[i].Receive? && Unread(After(EMPTY, events[..i], timeout)) >= RING_SIZE;
        assert i == |before|;
      }
      if NeverFull(events, timeout) {
        assert NeverFull(before, timeout);
      }
    }
  }

  lemma {:induction false} AllAccepted(events: seq<Event>, timeout: u32)
    requires NeverFull(events, timeout)
    ensures After(EMPTY, events, timeout).accepted == Received(events)
  {
    hide ReadStep;
    if events != [] {
      var before := events[..|events| - 1];
      assert forall i :: 0 <= i < |before| ==> events[..i] == before[..i] && events[i] == before[i];
      assert NeverFull(before, timeout);
      AllAccepted(before, timeout);
      if events[|events| - 1].Read? {
        ReadAccepts(After(EMPTY, before, timeout), timeout);
      }
    }
  }

  /** What was let in is what was received, exactly when no octet arrived while 8192 were unread. */
  lemma {:induction false} NothingLostIff(events: seq<Event>, timeout: u32)
    ensures After(EMPTY, events, timeout).accepted == Received(events) <==> NeverFull(events, timeout)
  {
    Conservation(events, timeout);
    if NeverFull(events, timeout) {
      AllAccepted(events, timeout);
    }
  }

  lemma {:induction false} ReceivedGrows(events: seq<Event>, i: nat)
    requires i <= |events|
    ensures |Received(events[..i])| <= |Received(events)|
    ensures i < |events| && events[i].Receive? ==> |Received(events[..i])| < |Received(events)|
    decreases |events|
  {
    if i < |events| {
      var before := events[..|events| - 1];
      assert events[..i] == before[..i];
      ReceivedGrows(before, i);
    } else {
      assert events[..i] == events;
    }
  }

  /** A burst of at most 8192 octets is never lost, however long the reader is kept away. */
  lemma ShortBurstFits(events: seq<Event>, timeout: u32)
    requires |Received(events)| <= 8192
    ensures NeverFull(events, timeout)
  {
    forall i | 0 <= i < |events| && events[i].Receive?
      ensures Unread(After(EMPTY, events[..i], timeout)) < RING_SIZE
    {
      Conservation(events[..i], timeout);
      ReceivedGrows(events, i);
    }
  }

  // ---------------------------------------------------------------- the reader gets everything

  function Reads(n: nat): (events: seq<Event>)
    ensures |events| == n && forall i :: 0 <= i < n ==> events[i] == Read
  {
    seq(n, _ => Read)
  }

  /** The reader's steps until the octet in hand, if any, and `Unread` more are handed out. */
  function StepsLeft(q: Queue): int {
    3 * Unread(q) - (match q.reader case Seen => 1 case Fetched(_) => 2 case _ => 0)
  }

  lemma Closer(q: Queue, timeout: u32)
    requires QueueOk(q, timeout) && Unread(q) > 0
    ensures var r := ReadStep(q, timeout); r.accepted == q.accepted && StepsLeft(r) == StepsLeft(q) - 1
  {
  }

  /** Left alone, the reader hands out every octet that was let in, in three steps an octet. */
  lemma {:induction false} Drains(q: Queue, timeout: u32)
    requires QueueOk(q, timeout) && StepsLeft(q) >= 0
    ensures Heard(After(q, Reads(StepsLeft(q)), timeout)) == q.accepted
    decreases StepsLeft(q)
  {
    hide ReadStep;
    var n := StepsLeft(q);
    if Unread(q) > 0 {
      assert n > 0;
      Closer(q, timeout);
      var r := Step(q, Read, timeout);
      assert Reads(n) == [Read] + Reads(n - 1);
      AfterJoin(q, [Read], Reads(n - 1), timeout);
      assert [Read][..0] == [];
      assert After(q, [Read], timeout) == r;
      Drains(r, timeout);
    } else {
      assert n == 0;
      assert Reads(0) == [];
    }
  }

  // ---------------------------------------------------------------- the waiting time

  /** The waiting time after a number of polls, in 32 bits. */
  function Waited(polls: nat): u32 {
    10 * polls % WORD
  }

  lemma WaitedNext(polls: nat)
    ensures Waited(polls + 1) == (Waited(polls) + 10) % WORD && Waited(0) == 0
    ensures Waited(polls) != 0xFFFF_FFFF
  {
    assert Waited(polls) % 2 == 0;
  }

  lemma ReadsOne(n: nat)
    ensures Reads(n + 1)[..n] == Reads(n) && Reads(n + 1) != [] && Reads(n + 1)[n] == Read
    ensures |Reads(n + 1)| == n + 1
  {
  }

  /** A read of an empty ring, as long as it waits. */
  lemma {:induction false} KeepsWaiting(q: Queue, n: nat, timeout: u32)
    requires QueueOk(q, timeout) && q.reader.Idle? && Unread(q) == 0
    requires forall k :: 0 <= k < n ==> Waited(k) < timeout
    ensures After(q, Reads(n), timeout) == if n == 0 then q else q.(reader := Waiting(Waited(n)))
  {
    hide Waited;
    if n == 0 {
      assert Reads(0) == [];
    } else {
      KeepsWaiting(q, n - 1, timeout);
      ReadsOne(n - 1);
      WaitedNext(0);
      WaitedNext(n - 1);
    }
  }

  /** It gives up at the first poll whose waiting time has reached the limit. */
  lemma GivesUpAt(q: Queue, n: nat, timeout: u32)
    requires QueueOk(q, timeout) && q.reader.Idle? && Unread(q) == 0
    requires Waited(n) >= timeout && forall k :: 0 <= k < n ==> Waited(k) < timeout
    ensures After(q, Reads(n + 1), timeout) == q.(timeouts := q.timeouts + 1)
  {
    hide Waited;
    KeepsWaiting(q, n, timeout);
    ReadsOne(n);
    WaitedNext(0);
  }

  /** Below the last ten values of the counter, after the limit divided by ten, rounded up. */
  lemma GivesUpAfter(q: Queue, timeout: u32)
    requires QueueOk(q, timeout) && q.reader.Idle? && Unread(q) == 0 && timeout <= 4_294_967_290
    ensures After(q, Reads((timeout + 9) / 10 + 1), timeout) == q.(timeouts := q.timeouts + 1)
    ensures forall n :: 0 <= n <= (timeout + 9) / 10 ==> After(q, Reads(n), timeout).timeouts == q.timeouts
  {
    var last := (timeout + 9) / 10;
    forall k | 0 <= k < last ensures Waited(k) < timeout {
      assert 10 * k < timeout;
    }
    assert Waited(last) == 10 * last >= timeout;
    GivesUpAt(q, last, timeout);
    forall n | 0 <= n <= last ensures After(q, Reads(n), timeout).timeouts == q.timeouts {
      KeepsWaiting(q, n, timeout);
    }
  }

  /** The first poll, if any, at which the limit is reached. */
  lemma FirstReached(n: nat, timeout: u32) returns (first: nat)
    requires Waited(n) >= timeout
    ensures Waited(first) >= timeout && forall k :: 0 <= k < first ==> Waited(k) < timeout
  {
    hide Waited;
    first := 0;
    while Waited(first) < timeout
      invariant first <= n && forall k :: 0 <= k < first ==> Waited(k) < timeout
      decreases n - first
    {
      first := first + 1;
    }
  }

  const LAST_POLL := 858993459 // 10 * LAST_POLL is 0xFFFF_FFFE modulo 2^32

  lemma LastPoll()
    ensures Waited(LAST_POLL) == 0xFFFF_FFFE
  {
  }

  /** A read of a ring that stays empty gives up for every limit but the one that means for ever. */
  lemma GivesUpIff(q: Queue, timeout: u32)
    requires QueueOk(q, timeout) && q.reader.Idle? && Unread(q) == 0
    ensures (exists n: nat :: After(q, Reads(n), timeout).timeouts > q.timeouts) <==> timeout != 0xFFFF_FFFF
  {
    hide After, Waited;
    if timeout != 0xFFFF_FFFF {
      LastPoll();
      var first := FirstReached(LAST_POLL, timeout);
      GivesUpAt(q, first, timeout);
    } else {
      forall n: nat ensures After(q, Reads(n), timeout).timeouts == q.timeouts {
        forall k | 0 <= k < n ensures Waited(k) < timeout {
          WaitedNext(k);
        }
        KeepsWaiting(q, n, timeout);
      }
    }
  }

  // ---------------------------------------------------------------- the ring

  /** The 32-bit index after `n` octets, and the slot the n-th octet belongs in. */
  function Index(n: nat): u32 {
    n % WORD
  }

  function SlotOf(n: nat): nat {
    n % RING_SIZE
  }

  lemma Wrapped(a: nat, b: nat)
    requires b <= a <= b + RING_SIZE
    ensures (Index(a) - Index(b)) % WORD == a - b
    ensures Index(a) == Index(b) ==> a == b
  {
  }

  lemma IndexNext(n: nat)
    ensures Index(n + 1) == (Index(n) + 1) % WORD
  {
  }

  lemma IndexSurvivesWrap(n: nat)
    ensures Index(n) % RING_SIZE == SlotOf(n) < RING_SIZE
  {
  }

  lemma DistinctSlots(k: nat, n: nat)
    requires k < n < k + RING_SIZE
    ensures SlotOf(k) != SlotOf(n)
  {
  }

  class Ring {
    const ring: array<byte>
    var head: u32
    var tail: u32
    var reader: Reader
    const timeout: u32
    var timeouts: nat

    ghost var queue: Queue   // what the ring stands for

    ghost predicate Valid()
      reads this, ring
    {
      && ring.Length == RING_SIZE
      && QueueOk(queue, timeout)
      && head == Index(|queue.accepted|) && tail == Index(queue.delivered)
      && (forall k :: queue.delivered <= k < |queue.accepted| ==> ring[SlotOf(k)] == queue.accepted[k])
      && reader == queue.reader && timeouts == queue.timeouts
    }

    constructor (timeoutMs: u32)
      ensures Valid() && queue == EMPTY && timeout == timeoutMs && fresh(ring)
    {
      ring := new byte[RING_SIZE];
      head, tail, reader, timeout, timeouts := 0, 0, Idle, timeoutMs, 0;
      queue := EMPTY;
    }

    /** The interrupt: push, or drop when the ring is full. */
    method Isr(data: byte)
      requires Valid()
      modifies this`head, this`queue, ring
      ensures Valid() && queue == Arrive(old(queue), data)
    {
      hide Index, SlotOf;
      var n, d := |queue.accepted|, queue.delivered;
      Wrapped(n, d);
      queue := Arrive(queue, data);
      if (head - tail) % WORD < RING_SIZE {
        IndexSurvivesWrap(n);
        IndexNext(n);
        forall k | d <= k < n ensures SlotOf(k) != SlotOf(n) {
          DistinctSlots(k, n);
        }
        ring[head % RING_SIZE] := data;
        head := (head + 1) % WORD;
      }
    }

    /** One step of the reader: a look at the indices, the fetch, or the advance that hands the octet out. */
    method ReaderStep() returns (got: Option<byte>)
      requires Valid()
      modifies this`tail, this`reader, this`timeouts, this`queue
      ensures Valid() && queue == ReadStep(old(queue), timeout)
      ensures Heard(queue) == Heard(old(queue)) + (if got.Some? then [got.value] else [])
    {
      hide Index, SlotOf;
      var n := queue.delivered;
      IndexNext(n);
      got := None;
      match reader {
        case Idle =>
          Poll(0);
        case Waiting(waited) =>
          Poll(waited);
        case Seen =>
          IndexSurvivesWrap(n);
          reader := Fetched(ring[tail % RING_SIZE]);
          queue := ReadStep(queue, timeout);
        case Fetched(octet) =>
          tail := (tail + 1) % WORD;
          reader := Idle;
          queue := ReadStep(queue, timeout);
          got := Some(octet);
      }
    }

    method Poll(waited: u32)
      requires Valid() && waited % 2 == 0
      modifies this`reader, this`timeouts, this`queue
      ensures Valid() && queue == Look(old(queue), waited, timeout)
    {
      hide Index, SlotOf;
      Wrapped(|queue.accepted|, queue.delivered);
      queue := Look(queue, waited, timeout);
      if tail == head {
        if waited >= timeout {
          timeouts := timeouts + 1;
          reader := Idle;
        } else {
          reader := Waiting((waited + 10) % WORD);
        }
      } else {
        reader := Seen;
      }
    }
  }

  lemma SameHeard(q: Queue, octet: byte)
    requires q.delivered <= |q.accepted|
    ensures q.delivered <= |Arrive(q, octet).accepted| && Heard(Arrive(q, octet)) == Heard(q)
    ensures Arrive(q, octet).delivered == q.delivered
  {
  }

  /**
   Under any interleaving of the interrupt with the reader's steps, and however often the indices wrap, the
   caller is handed what the bounded queue hands out, and gives up as often.
   */
  method Interleave(events: seq<Event>, timeoutMs: u32) returns (heard: seq<byte>, timeouts: nat)
    ensures heard == Heard(After(EMPTY, events, timeoutMs))
    ensures timeouts == After(EMPTY, events, timeoutMs).timeouts
    ensures timeoutMs == FOREVER ==> timeouts == 0
  {
    hide Index, SlotOf, Arrive, ReadStep;
    var ring := new Ring(timeoutMs);
    heard := [];
    for i := 0 to |events|
      invariant fresh(ring) && fresh(ring.ring) && ring.Valid() && ring.timeout == timeoutMs
      invariant ring.queue == After(EMPTY, events[..i], timeoutMs)
      invariant heard == Heard(ring.queue)
    {
      assert events[..i + 1][..i] == events[..i];
      match events[i] {
        case Receive(octet) =>
          ghost var was := ring.queue;
          ring.Isr(octet);
          SameHeard(was, octet);
        case Read =>
          var got := ring.ReaderStep();
          heard := heard + (if got.Some? then [got.value] else []);
      }
    }
    assert events[..|events|] == events;
    timeouts := ring.timeouts;
  }
}
