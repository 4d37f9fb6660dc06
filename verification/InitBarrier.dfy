/**
 The start-up barrier of ra_gen/main.c: N threads enter `rtos_startup_common_init`; the first through the
 counting semaphore initialises the hardware and then lets the others in, one token each.  A schedule
 names, step by step, the thread that moves.
 */
module InitBarrier {
  import opened Wrappers

  const MAX_COUNT := 256

  /** Where a thread stands in `rtos_startup_common_init`. */
  datatype Pc = Take
              | Check
              | SetFlag | HalStart | HalEnd | CountMyself
              | LoopTest | Give | CountDown
              | Left

  datatype State = State(
    pcs: seq<Pc>,
    tokens: nat,            // the semaphore's count
    initialized: bool,
    threadCount: nat,
    halStarted: nat,
    halFinished: nat,
    gives: nat,             // tokens given by the loop
    failures: nat,          // gives refused because the count was at its maximum
    first: Option<nat>)     // the thread that took the initial token

  function Start(n: nat): State {
    State(seq(n, _ => Take), 1, false, n, 0, 0, 0, 0, None)
  }

  predicate Enabled(s: State, i: nat) {
    i < |s.pcs| && s.pcs[i] != Left && (s.pcs[i] == Take ==> s.tokens > 0)
  }

  /** The unsigned counter, one less. */
  function Down(n: nat): nat {
    if n == 0 then 0xFFFF_FFFF else n - 1
  }

  function Move(s: State, i: nat): State
    requires Enabled(s, i)
  {
    match s.pcs[i]
    case Take =>
      s.(pcs := s.pcs[i := Check], tokens := s.tokens - 1, first := if s.first.None? then Some(i) else s.first)
    case Check => s.(pcs := s.pcs[i := if s.initialized then Left else SetFlag])
    case SetFlag => s.(pcs := s.pcs[i := HalStart], initialized := true)
    case HalStart => s.(pcs := s.pcs[i := HalEnd], halStarted := s.halStarted + 1)
    case HalEnd => s.(pcs := s.pcs[i := CountMyself], halFinished := s.halFinished + 1)
    case CountMyself => s.(pcs := s.pcs[i := LoopTest], threadCount := Down(s.threadCount))
    case LoopTest => s.(pcs := s.pcs[i := if s.threadCount > 0 then Give else Left])
    case Give =>
      if s.tokens < MAX_COUNT then s.(pcs := s.pcs[i := CountDown], tokens := s.tokens + 1, gives := s.gives + 1)
      else s.(pcs := s.pcs[i := CountDown], failures := s.failures + 1)
    case CountDown => s.(pcs := s.pcs[i := LoopTest], threadCount := Down(s.threadCount))
  }

  /** A thread that cannot move stays where it is. */
  function Step(s: State, i: nat): State {
    if Enabled(s, i) then Move(s, i) else s
  }

  function After(s: State, schedule: seq<nat>): State {
    if schedule == [] then s else Step(After(s, schedule[..|schedule| - 1]), schedule[|schedule| - 1])
  }

  // ---------------------------------------------------------------- counting the waiting threads

  function Waiting(pcs: seq<Pc>): nat {
    if pcs == [] then 0 else (if pcs[0] == Take then 1 else 0) + Waiting(pcs[1..])
  }

  lemma {:induction false} WaitingUpdate(pcs: seq<Pc>, i: nat, x: Pc)
    requires i < |pcs|
    ensures Waiting(pcs[i := x])
         == Waiting(pcs) - (if pcs[i] == Take then 1 else 0) + (if x == Take then 1 else 0)
  {
    if i == 0 {
      assert pcs[0 := x][1..] == pcs[1..];
    } else {
      WaitingUpdate(pcs[1..], i - 1, x);
      assert pcs[i := x][1..] == pcs[1..][i - 1 := x];
    }
  }

  lemma {:induction false} WaitingAll(n: nat)
    ensures Waiting(seq(n, _ => Take)) == n
  {
    if n > 0 {
      WaitingAll(n - 1);
      assert seq(n, _ => Take)[1..] == seq(n - 1, _ => Take);
    }
  }

  lemma {:induction false} WaitingBound(pcs: seq<Pc>)
    ensures Waiting(pcs) <= |pcs|
  {
    if pcs != [] {
      WaitingBound(pcs[1..]);
    }
  }

  lemma {:induction false} SomeoneElse(pcs: seq<Pc>, i: nat)
    requires i < |pcs| && pcs[i] != Take
    ensures Waiting(pcs) <= |pcs| - 1
  {
    if i == 0 {
      WaitingBound(pcs[1..]);
    } else {
      SomeoneElse(pcs[1..], i - 1);
    }
  }

  lemma {:induction false} SomeoneWaits(pcs: seq<Pc>) returns (i: nat)
    requires Waiting(pcs) > 0
    ensures i < |pcs| && pcs[i] == Take
  {
    if pcs[0] == Take {
      i := 0;
    } else {
      i := SomeoneWaits(pcs[1..]);
      i := i + 1;
    }
  }

  // ---------------------------------------------------------------- the invariant

  predicate Initialising(p: Pc) {
    p == HalStart || p == HalEnd || p == CountMyself
  }

  predicate Looping(p: Pc) {
    p == LoopTest || p == Give || p == CountDown || p == Left
  }

  /** Every thread but `f` waits for a token, has one, or is through. */
  predicate Followers(s: State, f: nat) {
    forall i :: 0 <= i < |s.pcs| && i != f ==> s.pcs[i] == Take || s.pcs[i] == Check || s.pcs[i] == Left
  }

  predicate NobodyElse(s: State, f: nat) {
    forall i :: 0 <= i < |s.pcs| && i != f ==> s.pcs[i] == Take
  }

  predicate First(s: State, f: nat) {
    && f < |s.pcs|
    && var p := s.pcs[f];
       && (p == Check || p == SetFlag || Initialising(p) || Looping(p))
       && (s.initialized <==> Initialising(p) || Looping(p))
       && s.halStarted == (if p == HalEnd || p == CountMyself || Looping(p) then 1 else 0)
       && s.halFinished == (if p == CountMyself || Looping(p) then 1 else 0)
       && (!Looping(p) ==> NobodyElse(s, f) && s.gives == 0 && s.threadCount == |s.pcs|)
       && (Looping(p) ==> Followers(s, f))
       && (p == LoopTest ==> s.gives + s.threadCount == |s.pcs| - 1)
       && (p == Give ==> s.gives + s.threadCount == |s.pcs| - 1 && s.threadCount > 0)
       && (p == CountDown ==> s.gives + s.threadCount == |s.pcs| && s.threadCount > 0)
       && (p == Left ==> s.gives == |s.pcs| - 1 && s.threadCount == 0)
  }

  /** Tokens and waiting threads balance throughout. */
  predicate Inv(s: State) {
    && 1 <= |s.pcs| <= MAX_COUNT + 1
    && s.failures == 0
    && s.tokens + |s.pcs| - 1 == s.gives + Waiting(s.pcs)
    && match s.first
       case None =>
         && (forall i :: 0 <= i < |s.pcs| ==> s.pcs[i] == Take)
         && !s.initialized && s.tokens == 1 && s.gives == 0 && s.halStarted == 0 && s.halFinished == 0
         && s.threadCount == |s.pcs|
       case Some(f) => First(s, f)
  }

  lemma InvStart(n: nat)
    requires 1 <= n <= MAX_COUNT + 1
    ensures Inv(Start(n))
  {
    WaitingAll(n);
  }

  lemma StepFirst(s: State, f: nat)
    requires Inv(s) && s.first == Some(f) && Enabled(s, f)
    ensures Inv(Move(s, f))
  {
    hide Waiting;
    SomeoneElse(s.pcs, f);
    WaitingUpdate(s.pcs, f, Move(s, f).pcs[f]);
    assert Move(s, f).pcs == s.pcs[f := Move(s, f).pcs[f]];
  }

  lemma StepFollower(s: State, f: nat, i: nat)
    requires Inv(s) && s.first == Some(f) && Enabled(s, i) && i != f
    ensures Inv(Move(s, i))
  {
    hide Waiting;
    SomeoneElse(s.pcs, f);
    assert s.pcs[f] == LoopTest || Looping(s.pcs[f]);
    WaitingUpdate(s.pcs, i, Check);
    WaitingUpdate(s.pcs, i, Left);
  }

  lemma StepOpening(s: State, i: nat)
    requires Inv(s) && s.first == None && Enabled(s, i)
    ensures Inv(Move(s, i))
  {
    hide Waiting;
    WaitingUpdate(s.pcs, i, Check);
  }

  lemma MoveSize(s: State, i: nat)
    requires Enabled(s, i)
    ensures |Move(s, i).pcs| == |s.pcs|
  {
  }

  lemma InvStep(s: State, i: nat)
    requires Inv(s)
    ensures Inv(Step(s, i)) && |Step(s, i).pcs| == |s.pcs|
  {
    if Enabled(s, i) {
      MoveSize(s, i);
      hide Inv, Move;
      if s.first == None {
        StepOpening(s, i);
      } else if s.first == Some(i) {
        StepFirst(s, i);
      } else {
        StepFollower(s, s.first.value, i);
      }
    }
  }

  lemma {:induction false} Reached(n: nat, schedule: seq<nat>)
    requires 1 <= n <= MAX_COUNT + 1
    ensures Inv(After(Start(n), schedule)) && |After(Start(n), schedule).pcs| == n
  {
    hide Inv, Step;
    if schedule == [] {
      InvStart(n);
    } else {
      var before := schedule[..|schedule| - 1];
      Reached(n, before);
      InvStep(After(Start(n), before), schedule[|schedule| - 1]);
    }
  }

  /**
   For 1 to 257 threads and any schedule: the hardware initialisation is started at most once and is
   finished before any thread leaves; no give fails and the count never passes 256; and once a thread has
   left the give loop, exactly N-1 tokens were given and there is a token for every thread still waiting.
   */
  lemma Barrier(n: nat, schedule: seq<nat>)
    requires 1 <= n <= 257
    ensures var s := After(Start(n), schedule);
      && s.halFinished <= s.halStarted <= 1
      && (forall i :: 0 <= i < |s.pcs| && s.pcs[i] == Left ==> s.halStarted == 1 && s.halFinished == 1)
      && s.failures == 0 && s.tokens <= 256
      && (s.first.Some? && s.first.value < |s.pcs| && s.pcs[s.first.value] == Left ==>
            s.gives == n - 1 && s.tokens == Waiting(s.pcs))
  {
    hide After, Waiting;
    Reached(n, schedule);
    var s := After(Start(n), schedule);
    match s.first {
      case None =>
      case Some(f) => SomeoneElse(s.pcs, f);
    }
  }

  lemma {:induction false} OneWaits(pcs: seq<Pc>, i: nat)
    requires i < |pcs| && pcs[i] == Take
    ensures Waiting(pcs) > 0
  {
    if i > 0 {
      OneWaits(pcs[1..], i - 1);
    }
  }

  /** The start-up never gets stuck: until every thread is through, some thread can move. */
  lemma NoDeadlock(n: nat, schedule: seq<nat>) returns (i: nat)
    requires 1 <= n <= MAX_COUNT + 1
    requires var s := After(Start(n), schedule); exists k :: 0 <= k < |s.pcs| && s.pcs[k] != Left
    ensures Enabled(After(Start(n), schedule), i)
  {
    hide After, Waiting;
    Reached(n, schedule);
    var s := After(Start(n), schedule);
    match s.first {
      case None =>
        i := 0;
      case Some(f) =>
        if s.pcs[f] != Left {
          i := f;
        } else {
          i :| 0 <= i < n && s.pcs[i] != Left;
          if s.pcs[i] == Take {
            OneWaits(s.pcs, i);
          }
        }
    }
  }

  /** How many steps a thread has left at most, the turns of the give loop apart. */
  function Steps(p: Pc): nat {
    match p
    case Take => 9
    case Check => 8
    case SetFlag => 7
    case HalStart => 6
    case HalEnd => 5
    case CountMyself => 4
    case LoopTest => 2
    case Give => 1
    case CountDown => 0
    case Left => 0
  }

  function Work(pcs: seq<Pc>): nat {
    if pcs == [] then 0 else Steps(pcs[0]) + Work(pcs[1..])
  }

  lemma {:induction false} WorkUpdate(pcs: seq<Pc>, i: nat, x: Pc)
    requires i < |pcs|
    ensures Work(pcs[i := x]) == Work(pcs) - Steps(pcs[i]) + Steps(x)
  {
    if i == 0 {
      assert pcs[0 := x][1..] == pcs[1..];
    } else {
      WorkUpdate(pcs[1..], i - 1, x);
      assert pcs[i := x][1..] == pcs[1..][i - 1 := x];
    }
  }

  /** The three steps of a turn of the give loop are paid for by the counter. */
  function Remaining(s: State): nat {
    Work(s.pcs) + 3 * s.threadCount
  }

  /** Every move brings the start-up closer to its end, so no schedule can keep moving for ever. */
  lemma EveryMoveProgresses(s: State, i: nat)
    requires Inv(s) && Enabled(s, i)
    ensures Remaining(Move(s, i)) < Remaining(s)
  {
    hide Waiting, Work;
    assert Move(s, i).pcs == s.pcs[i := Move(s, i).pcs[i]];
    WorkUpdate(s.pcs, i, Move(s, i).pcs[i]);
  }

  lemma AfterOne(n: nat, schedule: seq<nat>, i: nat)
    ensures After(Start(n), schedule + [i]) == Step(After(Start(n), schedule), i)
  {
    assert (schedule + [i])[..|schedule|] == schedule;
  }

  lemma AllLeft(s: State)
    requires Inv(s) && forall k :: 0 <= k < |s.pcs| ==> s.pcs[k] == Left
    ensures s.halStarted == 1 && s.halFinished == 1 && s.gives == |s.pcs| - 1
  {
    hide Waiting;
    assert s.pcs[0] == Left;
  }

  /** Any schedule can be continued until every thread is through; the hardware is then initialised exactly once. */
  lemma {:induction false} Completes(n: nat, schedule: seq<nat>) returns (longer: seq<nat>)
    requires 1 <= n <= 257
    ensures schedule <= longer
    ensures var s := After(Start(n), longer);
      && (forall k :: 0 <= k < |s.pcs| ==> s.pcs[k] == Left)
      && s.halStarted == 1 && s.halFinished == 1 && s.gives == n - 1
    decreases Remaining(After(Start(n), schedule))
  {
    hide After, Inv, Remaining, Move, Start;
    Reached(n, schedule);
    var s := After(Start(n), schedule);
    if exists k :: 0 <= k < |s.pcs| && s.pcs[k] != Left {
      var i := NoDeadlock(n, schedule);
      EveryMoveProgresses(s, i);
      var more := schedule + [i];
      AfterOne(n, schedule, i);
      longer := Completes(n, more);
    } else {
      longer := schedule;
      AllLeft(s);
    }
  }

  // ---------------------------------------------------------------- more threads than the semaphore can count

  /** The first thread alone, after its own part and `k` successful gives. */
  function Alone(n: nat, k: nat): State
    requires 0 < n && k < n
  {
    State(seq(n, _ => Take)[0 := LoopTest], k, true, n - 1 - k, 1, 1, k, 0, Some(0))
  }

  lemma OneMove(n: nat, schedule: seq<nat>, i: nat) returns (longer: seq<nat>)
    ensures After(Start(n), longer) == Step(After(Start(n), schedule), i)
  {
    longer := schedule + [i];
    assert longer[..|schedule|] == schedule;
  }

  lemma AloneGives(n: nat, k: nat)
    requires k + 1 < n && k < MAX_COUNT
    ensures Step(Step(Step(Alone(n, k), 0), 0), 0) == Alone(n, k + 1)
  {
    assert Step(Step(Step(Alone(n, k), 0), 0), 0).pcs == Alone(n, k + 1).pcs;
  }

  lemma AloneOpening(n: nat)
    requires 0 < n
    ensures After(Start(n), []) == Start(n)
    ensures Step(Step(Step(Step(Step(Step(Start(n), 0), 0), 0), 0), 0), 0) == Alone(n, 0)
  {
    assert Step(Step(Step(Step(Step(Step(Start(n), 0), 0), 0), 0), 0), 0).pcs == Alone(n, 0).pcs;
  }

  lemma {:induction false} AloneReached(n: nat, k: nat) returns (schedule: seq<nat>)
    requires 0 < n && k < n && k <= MAX_COUNT
    ensures After(Start(n), schedule) == Alone(n, k)
  {
    hide After, Step, Start;
    if k == 0 {
      AloneOpening(n);
      schedule := OneMove(n, [], 0);
      schedule := OneMove(n, schedule, 0);
      schedule := OneMove(n, schedule, 0);
      schedule := OneMove(n, schedule, 0);
      schedule := OneMove(n, schedule, 0);
      schedule := OneMove(n, schedule, 0);
    } else {
      AloneGives(n, k - 1);
      schedule := AloneReached(n, k - 1);
      schedule := OneMove(n, schedule, 0);
      schedule := OneMove(n, schedule, 0);
      schedule := OneMove(n, schedule, 0);
    }
  }

  lemma GiveRefused(n: nat)
    requires n > MAX_COUNT + 1
    ensures Step(Step(Alone(n, MAX_COUNT), 0), 0).failures == 1
  {
  }

  /** No give ever fails, whatever the schedule, exactly for up to 257 threads. */
  lemma NoGiveFailsIff(n: nat)
    requires 1 <= n
    ensures n <= 257 <==> forall schedule :: After(Start(n), schedule).failures == 0
  {
    hide After, Step;
    if n <= MAX_COUNT + 1 {
      forall schedule ensures After(Start(n), schedule).failures == 0 {
        Reached(n, schedule);
      }
    } else {
      var schedule := AloneReached(n, MAX_COUNT);
      schedule := OneMove(n, schedule, 0);
      schedule := OneMove(n, schedule, 0);
      GiveRefused(n);
      assert After(Start(n), schedule).failures == 1;
    }
  }
}
