/**
 What the deferred-transfer protocol gets done (src/iotc/iotc_app.c): from every reachable state the net thread
 and the transfer task alone can bring the device back into service, serve a restart, download a pending push
 and take a requested snapshot; and what each poll round must do with the flags it finds.
 */
module TransferProgress {
  import opened Transfer

  // ---------------------------------------------------------------- continuing a schedule

  /** Nobody asks for anything: only the net thread and the transfer task move. */
  predicate Internal(run: seq<Action>) {
    forall i :: 0 <= i < |run| ==> run[i].NetStep? || run[i].XferStep?
  }

  /** What holds in every schedule. */
  predicate Reach(s: State) {
    Flags(s) && InService(s)
  }

  lemma ReachHolds(run: seq<Action>)
    ensures Reach(Exec(INIT, run))
  {
    hide Exec, Flags, InService;
    FlagsHold(run);
    InServiceHolds(run);
  }

  lemma ReachStep(s: State, a: Action)
    requires Reach(s)
    ensures Reach(Next(s, a))
  {
    hide Next, Flags, InService;
    FlagsStep(s, a);
    InServiceStep(s, a);
  }

  lemma {:induction false} ExecJoin(s: State, a: seq<Action>, b: seq<Action>)
    ensures Exec(s, a + b) == Exec(Exec(s, a), b)
    decreases |b|
  {
    hide Next;
    if b == [] {
      assert a + b == a;
    } else {
      ExecJoin(s, a, b[..|b| - 1]);
      assert (a + b)[..|a + b| - 1] == a + b[..|b| - 1];
    }
  }

  /** A continuation of the schedules from `s0`, so far, and what is kept on the way. */
  predicate Along(s0: State, run: seq<Action>) {
    Internal(run) && Reach(Exec(s0, run))
  }

  /** The pending push has not been let go, and its transfer was never started for nobody. */
  predicate Steady(s0: State, run: seq<Action>, push: Slot) {
    && Guarded(s0, run)
    && var s := Exec(s0, run);
       s.modelPending && s.slot == push && !Finishing(s.xfer)
  }

  lemma Begin(s: State)
    requires Reach(s)
    ensures Along(s, []) && Exec(s, []) == s && Guarded(s, [])
  {
    hide Reach;
  }

  lemma NetMoves(s0: State, run: seq<Action>, c: Choice) returns (more: seq<Action>)
    requires Along(s0, run)
    ensures more == run + [NetStep(c)] && Along(s0, more) && Exec(s0, more) == NetNext(Exec(s0, run), c)
    ensures forall push :: Steady(s0, run, push) ==> Steady(s0, more, push)
  {
    hide Reach, NetNext, Finishing;
    var s := Exec(s0, run);
    more := run + [NetStep(c)];
    assert more[..|run|] == run;
    ReachStep(s, NetStep(c));
    NetFrame(s, c);
  }

  lemma XferMoves(s0: State, run: seq<Action>, c: Choice) returns (more: seq<Action>)
    requires Along(s0, run)
    ensures more == run + [XferStep(c)] && Along(s0, more) && Exec(s0, more) == XferNext(Exec(s0, run), c)
    ensures Guarded(s0, run) ==> Guarded(s0, more)
  {
    hide Reach, XferNext;
    more := run + [XferStep(c)];
    assert more[..|run|] == run;
    ReachStep(Exec(s0, run), XferStep(c));
  }

  // ---------------------------------------------------------------- the transfer task alone

  /** The steps the transfer task has left until it blocks with nothing to look at. */
  function XferLeft(s: State): nat {
    (match s.xfer
     case Blocked => 0
     case Uploading(u) => (match u case SnapshotOff => 1 case ClearSnapshot => 2 case Capture => 3)
     case CheckSnapshot => 4
     case Pushing(p) =>
       (match p case ModelOff => 5 case ClearPending => 6 case FreeStrings => 7 case Download(_) => 8 case Enter => 9)
     case CheckModel => 10)
    + (if s.notified then 11 else 0)
  }

  predicate AtRest(s: State) {
    s.xfer.Blocked? && !s.notified
  }

  /** What the transfer task keeps on its way, if it meets no snapshot request it would lower. */
  predicate XferWay(s: State, t: State) {
    && t.net == s.net && t.app == s.app && t.restartReq == s.restartReq && t.teardowns == s.teardowns
    && t.mqtt == s.mqtt
    && (s.xfer != Uploading(ClearSnapshot) ==> t.snapshotPending == s.snapshotPending)
    && (s.xfer != Uploading(SnapshotOff) ==> t.snapshotRunning == s.snapshotRunning)
    && (s.modelPending && !Finishing(s.xfer) ==> t.modelPending && t.slot == s.slot && !Finishing(t.xfer))
    && (t.xfer == Uploading(ClearSnapshot) ==> s.xfer == Uploading(Capture))
    && (t.xfer == Uploading(SnapshotOff) ==> s.xfer == Uploading(ClearSnapshot))
  }

  lemma PushWay(s: State, p: Push)
    requires s.xfer == Pushing(p)
    ensures XferWay(s, PushNext(s, p, First)) && XferLeft(PushNext(s, p, First)) < XferLeft(s)
  {
    match p
    case Enter =>
    case Download(_) =>
    case FreeStrings =>
    case ClearPending =>
    case ModelOff =>
  }

  lemma UploadWay(s: State, u: Upload)
    requires s.xfer == Uploading(u)
    ensures XferWay(s, UploadNext(s, u)) && XferLeft(UploadNext(s, u)) < XferLeft(s)
  {
    match u
    case Capture =>
    case ClearSnapshot =>
    case SnapshotOff =>
  }

  lemma IdleWay(s: State)
    requires (s.xfer.Blocked? && s.notified) || s.xfer.CheckModel? || s.xfer.CheckSnapshot?
    ensures XferWay(s, XferNext(s, First)) && XferLeft(XferNext(s, First)) < XferLeft(s)
  {
    match s.xfer
    case Blocked =>
    case CheckModel =>
    case CheckSnapshot =>
  }

  lemma XferStepWay(s: State)
    requires !AtRest(s)
    ensures XferWay(s, XferNext(s, First)) && XferLeft(XferNext(s, First)) < XferLeft(s)
  {
    hide PushNext, UploadNext, XferWay, XferLeft;
    match s.xfer
    case Pushing(p) => PushWay(s, p);
    case Uploading(u) => UploadWay(s, u);
    case _ => IdleWay(s);
  }

  /** What was kept over several steps, stopping before a capture or not. */
  predicate Came(s: State, t: State, stop: bool) {
    && t.net == s.net && t.app == s.app && t.restartReq == s.restartReq && t.teardowns == s.teardowns
    && t.mqtt == s.mqtt
    && (stop && s.xfer != Uploading(ClearSnapshot) ==>
          t.snapshotPending == s.snapshotPending && t.xfer != Uploading(ClearSnapshot))
    && (stop && s.xfer != Uploading(ClearSnapshot) && s.xfer != Uploading(SnapshotOff) ==>
          t.snapshotRunning == s.snapshotRunning)
  }

  lemma CameOn(s: State, t: State, u: State, stop: bool)
    requires XferWay(s, t) && Came(t, u, stop) && (stop ==> s.xfer != Uploading(Capture))
    ensures Came(s, u, stop)
  {
  }

  lemma SteadyXfer(s0: State, run: seq<Action>, more: seq<Action>, push: Slot)
    requires Steady(s0, run, push) && Guarded(s0, more) && XferWay(Exec(s0, run), Exec(s0, more))
    ensures Steady(s0, more, push)
  {
    hide Exec, Guarded, Finishing;
  }

  lemma CameNowhere(s: State, stop: bool)
    ensures Came(s, s, stop)
  {
  }

  lemma SteadyGuarded(s0: State, run: seq<Action>, push: Slot)
    requires Steady(s0, run, push)
    ensures Guarded(s0, run)
  {
  }

  /** Left alone, the transfer task comes to rest; if told to stop for it, it may instead stand before a capture. */
  lemma {:induction false} XferRests(s0: State, run: seq<Action>, stop: bool) returns (more: seq<Action>)
    requires Along(s0, run)
    ensures Along(s0, more) && Came(Exec(s0, run), Exec(s0, more), stop)
    ensures var t := Exec(s0, more); AtRest(t) || (stop && t.xfer == Uploading(Capture))
    ensures forall push :: Steady(s0, run, push) ==> Steady(s0, more, push)
    decreases XferLeft(Exec(s0, run))
  {
    hide Along, Exec, Guarded, XferNext, XferLeft, XferWay, Came, Steady;
    var s := Exec(s0, run);
    if AtRest(s) || (stop && s.xfer == Uploading(Capture)) {
      more := run;
      CameNowhere(s, stop);
    } else {
      XferStepWay(s);
      var one := XferMoves(s0, run, First);
      forall push | Steady(s0, run, push) ensures Steady(s0, one, push) {
        SteadyGuarded(s0, run, push);
        SteadyXfer(s0, run, one, push);
      }
      more := XferRests(s0, one, stop);
      CameOn(s, Exec(s0, one), Exec(s0, more), stop);
    }
  }

  // ---------------------------------------------------------------- the net thread alone

  /** On its way home the net thread connects and retries, and does not start a push. */
  function HomeChoice(n: Net): Choice {
    if n == ModelGuard(Decide) then First else Second
  }

  function NetLeft(n: Net): nat {
    match n
    case Top => 0
    case SnapshotGuard(step) =>
      (match step case Notify => 1 case SetRunning => 2 case Decide => 3 case AskRunning => 3 case AskPending => 4)
    case ModelGuard(step) =>
      (match step case Notify => 5 case SetRunning => 6 case Decide => 7 case AskRunning => 8 case AskPending => 9)
    case Dispatch => 10
    case Restarting(b) => (match b case TearDown => 11 case AskSnapshot => 12 case AskModel => 13)
    case Retrying(b) => (match b case TearDown => 1 case AskSnapshot => 2 case AskModel => 3)
  }

  /** What the net thread keeps on its way. */
  predicate NetWay(s: State, t: State) {
    && SamePush(s, t) && t.xfer == s.xfer && t.snapshotPending == s.snapshotPending
    && s.teardowns <= t.teardowns && (t.restartReq == s.restartReq || (!t.restartReq && s.teardowns < t.teardowns))
    && (!s.app.Failed? ==> !t.app.Failed?) && (s.app.Failed? ==> t.app.Failed? || s.teardowns < t.teardowns)
  }

  lemma HomeRestart(s: State, b: Busy)
    requires s.net == Restarting(b)
    ensures var t := RestartNext(s, b); NetLeft(t.net) < NetLeft(s.net) && NetWay(s, t)
  {
    match b
    case AskModel =>
    case AskSnapshot =>
    case TearDown =>
  }

  lemma HomeRetry(s: State, b: Busy)
    requires s.net == Retrying(b)
    ensures var t := RetryNext(s, b); NetLeft(t.net) < NetLeft(s.net) && NetWay(s, t)
  {
    match b
    case AskModel =>
    case AskSnapshot =>
    case TearDown =>
  }

  lemma HomeDispatch(s: State)
    requires s.net.Dispatch?
    ensures var t := DispatchNext(s, Second); NetLeft(t.net) < NetLeft(s.net) && NetWay(s, t)
  {
    match s.app
    case Idle =>
    case Running =>
    case Failed =>
  }

  lemma HomeModel(s: State, step: Start)
    requires s.net == ModelGuard(step)
    ensures var t := ModelGuardNext(s, step, HomeChoice(s.net)); NetLeft(t.net) < NetLeft(s.net) && NetWay(s, t)
  {
    match step
    case AskPending =>
    case AskRunning =>
    case Decide =>
    case SetRunning =>
    case Notify =>
  }

  lemma HomeSnapshot(s: State, step: Start)
    requires s.net == SnapshotGuard(step)
    ensures var t := SnapshotGuardNext(s, step); NetLeft(t.net) < NetLeft(s.net) && NetWay(s, t)
  {
    match step
    case AskPending =>
    case AskRunning =>
    case Decide =>
    case SetRunning =>
    case Notify =>
  }

  lemma HomeStep(s: State)
    requires !s.net.Top?
    ensures var t := NetNext(s, HomeChoice(s.net)); NetLeft(t.net) < NetLeft(s.net) && NetWay(s, t)
  {
    hide RestartNext, RetryNext, DispatchNext, ModelGuardNext, SnapshotGuardNext, NetLeft, NetWay;
    match s.net
    case Restarting(b) => HomeRestart(s, b);
    case Dispatch => HomeDispatch(s);
    case ModelGuard(step) => HomeModel(s, step);
    case SnapshotGuard(step) => HomeSnapshot(s, step);
    case Retrying(b) => HomeRetry(s, b);
  }

  lemma NetWayOn(s: State, t: State, u: State)
    requires NetWay(s, t) && NetWay(t, u)
    ensures NetWay(s, u)
  {
  }

  lemma NetWayNowhere(s: State)
    ensures NetWay(s, s)
  {
  }

  /** Left alone, the net thread ends its round. */
  lemma {:induction false} RoundEnds(s0: State, run: seq<Action>) returns (more: seq<Action>)
    requires Along(s0, run)
    ensures Along(s0, more) && NetWay(Exec(s0, run), Exec(s0, more)) && Exec(s0, more).net.Top?
    ensures forall push :: Steady(s0, run, push) ==> Steady(s0, more, push)
    decreases NetLeft(Exec(s0, run).net)
  {
    hide Along, Exec, Guarded, NetNext, NetLeft, NetWay, Steady;
    var s := Exec(s0, run);
    if s.net.Top? {
      more := run;
      NetWayNowhere(s);
    } else {
      HomeStep(s);
      var one := NetMoves(s0, run, HomeChoice(s.net));
      more := RoundEnds(s0, one);
      NetWayOn(s, Exec(s0, one), Exec(s0, more));
    }
  }

  // ---------------------------------------------------------------- back into service

  /** The net thread between two rounds, and nothing to do for the transfer task. */
  predicate Settled(s: State) {
    s.net.Top? && AtRest(s) && !s.modelRunning && !s.snapshotRunning
  }

  lemma RestIsSettled(s: State)
    requires Reach(s) && s.net.Top? && AtRest(s)
    ensures Settled(s)
  {
    hide Guards, InService;
  }

  lemma AlongReach(s0: State, run: seq<Action>)
    requires Along(s0, run)
    ensures Reach(Exec(s0, run))
  {
  }

  /** A restart that was asked for: the connection is torn down and made again. */
  lemma Restarted(s0: State, run: seq<Action>) returns (more: seq<Action>)
    requires Along(s0, run) && Settled(Exec(s0, run)) && Exec(s0, run).restartReq
    ensures Along(s0, more) && (forall push :: Steady(s0, run, push) ==> Steady(s0, more, push))
    ensures var s := Exec(s0, run);
      Exec(s0, more) == s.(restartReq := false, app := Running, teardowns := s.teardowns + 1)
  {
    hide Along, Exec, Steady;
    more := NetMoves(s0, run, Second);
    more := NetMoves(s0, more, Second);
    more := NetMoves(s0, more, Second);
    more := NetMoves(s0, more, Second);
    more := NetMoves(s0, more, Second);
  }

  /** A failed connection is torn down. */
  lemma Retried(s0: State, run: seq<Action>) returns (more: seq<Action>)
    requires Along(s0, run) && Settled(Exec(s0, run)) && !Exec(s0, run).restartReq && Exec(s0, run).app.Failed?
    ensures Along(s0, more) && (forall push :: Steady(s0, run, push) ==> Steady(s0, more, push))
    ensures var s := Exec(s0, run); Exec(s0, more) == s.(app := Idle, teardowns := s.teardowns + 1)
  {
    hide Along, Exec, Steady;
    more := NetMoves(s0, run, Second);
    more := NetMoves(s0, more, Second);
    more := NetMoves(s0, more, Second);
    more := NetMoves(s0, more, Second);
    more := NetMoves(s0, more, Second);
  }

  lemma Connects(s0: State, run: seq<Action>) returns (more: seq<Action>)
    requires Along(s0, run) && Settled(Exec(s0, run)) && !Exec(s0, run).restartReq && Exec(s0, run).app.Idle?
    ensures Along(s0, more) && (forall push :: Steady(s0, run, push) ==> Steady(s0, more, push))
    ensures Exec(s0, more) == Exec(s0, run).(app := Running)
  {
    hide Along, Exec, Steady;
    more := NetMoves(s0, run, Second);
    more := NetMoves(s0, more, Second);
  }

  predicate Serving(s: State) {
    Settled(s) && s.app.Running? && !s.restartReq
  }

  lemma ComesToService(s0: State, run: seq<Action>) returns (more: seq<Action>)
    requires Along(s0, run) && Settled(Exec(s0, run))
    ensures Along(s0, more) && NetWay(Exec(s0, run), Exec(s0, more)) && Serving(Exec(s0, more))
    ensures forall push :: Steady(s0, run, push) ==> Steady(s0, more, push)
  {
    hide Along, Exec, Steady;
    more := run;
    if Exec(s0, run).restartReq {
      more := Restarted(s0, run);
    } else if Exec(s0, run).app.Failed? {
      more := Retried(s0, run);
      more := Connects(s0, more);
    } else if Exec(s0, run).app.Idle? {
      more := Connects(s0, run);
    }
  }

  /** What several turns of both leave of a restart request and a failed connection. */
  predicate NetCame(s: State, t: State) {
    && s.teardowns <= t.teardowns
    && (t.restartReq == s.restartReq || (!t.restartReq && s.teardowns < t.teardowns))
    && (s.app.Failed? ==> t.app.Failed? || s.teardowns < t.teardowns)
  }

  lemma CameNet(s: State, t: State, u: State, v: State, stop: bool)
    requires Came(s, t, stop) && NetWay(t, u) && Came(u, v, stop)
    ensures NetCame(s, v)
  {
  }

  lemma SameNet(s: State, t: State, stop: bool)
    requires Came(s, t, stop)
    ensures t.net == s.net && t.app == s.app && t.restartReq == s.restartReq
  {
  }

  /** Both tasks come to rest. */
  lemma Settles(s0: State, run: seq<Action>) returns (more: seq<Action>)
    requires Along(s0, run)
    ensures Along(s0, more) && Settled(Exec(s0, more)) && NetCame(Exec(s0, run), Exec(s0, more))
    ensures forall push :: Steady(s0, run, push) ==> Steady(s0, more, push)
  {
    hide Along, Exec, Steady, Came, NetWay, AtRest, Settled, NetCame;
    var one := XferRests(s0, run, false);
    var two := RoundEnds(s0, one);
    more := XferRests(s0, two, false);
    CameNet(Exec(s0, run), Exec(s0, one), Exec(s0, two), Exec(s0, more), false);
    AlongReach(s0, more);
    assert Exec(s0, more).net.Top? by {
      SameNet(Exec(s0, two), Exec(s0, more), false);
    }
    RestIsSettled(Exec(s0, more));
  }

  lemma ServedOn(s: State, t: State, u: State)
    requires NetCame(s, t) && NetWay(t, u) && Serving(u)
    ensures s.restartReq || s.app.Failed? ==> s.teardowns < u.teardowns
  {
  }

  /**
   Every schedule can be continued by the two tasks alone until the device is connected and at rest; if a
   restart was asked for or the connection had failed, it was torn down on the way.
   */
  lemma ServiceRestored(run: seq<Action>) returns (more: seq<Action>)
    ensures Internal(more)
    ensures var s := Exec(INIT, run); var t := Exec(INIT, run + more);
      && t.net.Top? && t.app.Running? && !t.restartReq
      && t.xfer.Blocked? && !t.notified && !t.modelRunning && !t.snapshotRunning
      && (s.restartReq || s.app.Failed? ==> s.teardowns < t.teardowns)
  {
    hide Exec, Reach, NetCame, NetWay;
    var s := Exec(INIT, run);
    ReachHolds(run);
    Begin(s);
    var one := Settles(s, []);
    more := ComesToService(s, one);
    ServedOn(s, Exec(s, one), Exec(s, more));
    ExecJoin(INIT, run, more);
  }

  lemma OneStep(s: State, a: Action)
    ensures Exec(s, [a]) == Next(s, a)
  {
    hide Next;
    assert [a][..0] == [];
    ExecNone(s);
  }

  /** In particular a restart, asked for at any time, is carried out. */
  lemma RestartServed(run: seq<Action>) returns (more: seq<Action>)
    ensures Internal(more)
    ensures var t := Exec(INIT, run + [RequestRestart] + more);
      Exec(INIT, run).teardowns < t.teardowns && !t.restartReq && t.app.Running?
  {
    hide Exec;
    ExecJoin(INIT, run, [RequestRestart]);
    OneStep(Exec(INIT, run), RequestRestart);
    more := ServiceRestored(run + [RequestRestart]);
  }

  // ---------------------------------------------------------------- a pending push gets its download

  /** From service, the net thread starts the pending push and the transfer task enters its download. */
  lemma StartsPush(s0: State, run: seq<Action>, push: Slot) returns (more: seq<Action>)
    requires Along(s0, run) && Serving(Exec(s0, run)) && Steady(s0, run, push)
    ensures Along(s0, more) && Guarded(s0, more) && Exec(s0, more).xfer == Pushing(Download(push))
  {
    hide Along, Exec, Guarded;
    more := NetMoves(s0, run, Second);
    more := NetMoves(s0, more, Second);
    more := NetMoves(s0, more, Second);
    more := NetMoves(s0, more, Second);
    more := NetMoves(s0, more, Second);
    more := NetMoves(s0, more, Second);
    more := NetMoves(s0, more, Second);
    more := XferMoves(s0, more, First);
    more := XferMoves(s0, more, First);
    more := XferMoves(s0, more, First);
  }

  lemma PendingHolds(s: State, p: nat)
    requires Sound(s, p) && s.modelPending && !Finishing(s.xfer)
    ensures s.slot.Holds? && (s.xfer.Pushing? && s.xfer.push.Download? ==> s.xfer.push.using == s.slot)
  {
    hide Flags, AckFor, Guards, Accepting;
  }

  /**
   A push that is pending in a schedule without a stale start gets its download, with its own strings: such
   a schedule can be continued so by the two tasks alone, unless the download has just ended.
   */
  lemma PushServed(run: seq<Action>) returns (more: seq<Action>)
    requires Guarded(INIT, run)
    requires var s := Exec(INIT, run); s.modelPending && !Finishing(s.xfer)
    ensures var s := Exec(INIT, run); var t := Exec(INIT, run + more);
      && Internal(more) && Guarded(s, more)
      && s.slot.Holds? && t.xfer == Pushing(Download(s.slot))
  {
    hide Exec, Guarded, Reach, NetCame, NetWay;
    var s := Exec(INIT, run);
    SoundInit(0);
    SoundRun(INIT, run, 0);
    PendingHolds(s, 0);
    ReachHolds(run);
    Begin(s);
    if s.xfer.Pushing? && s.xfer.push.Download? {
      more := [];
    } else if s.xfer == Pushing(Enter) {
      more := XferMoves(s, [], First);
    } else {
      assert Steady(s, [], s.slot);
      var one := Settles(s, []);
      more := ComesToService(s, one);
      more := StartsPush(s, more, s.slot);
    }
    ExecJoin(INIT, run, more);
  }

  // ---------------------------------------------------------------- a requested snapshot is taken

  /** A raised and announced snapshot flag leads to a capture. */
  lemma Captures(s0: State, run: seq<Action>) returns (more: seq<Action>)
    requires Along(s0, run)
    requires var s := Exec(s0, run);
      && s.net.Top? && s.snapshotRunning
      && s.xfer != Uploading(ClearSnapshot) && s.xfer != Uploading(SnapshotOff)
    ensures Along(s0, more) && Exec(s0, more).xfer == Uploading(Capture)
  {
    hide Along, Exec, Reach;
    more := XferRests(s0, run, true);
    AlongReach(s0, more);
    if AtRest(Exec(s0, more)) {
      RestIsSettled(Exec(s0, more));
    }
  }

  /** From the snapshot guard on, with the request up and no transfer running. */
  lemma GuardTakesSnapshot(s0: State, run: seq<Action>) returns (more: seq<Action>)
    requires Along(s0, run)
    requires var s := Exec(s0, run); s.net == SnapshotGuard(AskRunning) && !s.snapshotRunning && s.xfer.Blocked?
    ensures Along(s0, more) && Exec(s0, more).xfer == Uploading(Capture)
  {
    hide Along, Exec;
    more := NetMoves(s0, run, Second);
    more := NetMoves(s0, more, Second);
    more := NetMoves(s0, more, Second);
    more := Captures(s0, more);
  }

  /** A connected round reaches the snapshot guard without starting a push. */
  lemma ReachesGuard(s0: State, run: seq<Action>) returns (more: seq<Action>)
    requires Along(s0, run)
    requires var s := Exec(s0, run); s.net.Dispatch? && s.app.Running? && s.snapshotPending
    ensures Along(s0, more)
    ensures Exec(s0, more) == Exec(s0, run).(net := SnapshotGuard(AskRunning))
  {
    hide Along, Exec;
    var s := Exec(s0, run);
    more := NetMoves(s0, run, Second);
    more := NetMoves(s0, more, Second);
    if s.modelPending {
      more := NetMoves(s0, more, Second);
      if !s.modelRunning {
        more := NetMoves(s0, more, First);
      }
    }
    more := NetMoves(s0, more, Second);
  }

  lemma DispatchesBusy(s0: State, run: seq<Action>) returns (more: seq<Action>)
    requires Along(s0, run)
    requires var s := Exec(s0, run); s.net.Top? && s.snapshotRunning
    ensures Along(s0, more)
    ensures Exec(s0, more) == Exec(s0, run).(net := Dispatch)
  {
    hide Along, Exec;
    var s := Exec(s0, run);
    more := NetMoves(s0, run, Second);
    if s.restartReq {
      more := NetMoves(s0, more, Second);
      if !s.modelRunning {
        more := NetMoves(s0, more, Second);
      }
    }
  }

  /** While an upload runs, a round of a connected net thread still reaches the guard. */
  lemma ReachesGuardBusy(s0: State, run: seq<Action>) returns (more: seq<Action>)
    requires Along(s0, run)
    requires var s := Exec(s0, run); s.net.Top? && !s.app.Failed? && s.snapshotPending && s.snapshotRunning
    ensures Along(s0, more)
    ensures Exec(s0, more) == Exec(s0, run).(net := SnapshotGuard(AskRunning), app := Running)
  {
    hide Along, Exec;
    more := DispatchesBusy(s0, run);
    if Exec(s0, run).app.Idle? {
      more := NetMoves(s0, more, Second);
      more := DispatchesBusy(s0, more);
    }
    more := ReachesGuard(s0, more);
  }

  lemma UploadRuns(s: State)
    requires Reach(s) && s.xfer.Uploading?
    ensures s.snapshotRunning
  {
  }

  /** A request that came after the capture of an upload still under way. */
  lemma TakenAfterUpload(s: State) returns (more: seq<Action>)
    requires Reach(s) && s.snapshotPending && s.xfer == Uploading(ClearSnapshot) && !s.app.Failed?
    ensures Along(s, more) && Exec(s, more).xfer == Uploading(Capture)
  {
    hide Along, Exec, Reach;
    Begin(s);
    more := RoundEnds(s, []);
    AlongReach(s, more);
    UploadRuns(Exec(s, more));
    more := ReachesGuardBusy(s, more);
    more := XferMoves(s, more, First);
    more := XferMoves(s, more, First);
    more := GuardTakesSnapshot(s, more);
  }

  lemma TakenAtRest(s: State) returns (more: seq<Action>)
    requires Reach(s) && s.snapshotPending && s.xfer != Uploading(ClearSnapshot)
    ensures Along(s, more) && Exec(s, more).xfer == Uploading(Capture)
  {
    hide Along, Exec, Reach;
    Begin(s);
    more := XferRests(s, [], true);
    if Exec(s, more).xfer != Uploading(Capture) {
      more := RoundEnds(s, more);
      more := XferRests(s, more, true);
      if Exec(s, more).xfer != Uploading(Capture) {
        AlongReach(s, more);
        RestIsSettled(Exec(s, more));
        more := ComesToService(s, more);
        more := NetMoves(s, more, Second);
        more := ReachesGuard(s, more);
        more := GuardTakesSnapshot(s, more);
      }
    }
  }

  /** A request is being absorbed: the upload under way lowers its flag, and no round can look at it before. */
  predicate Absorbing(s: State) {
    match s.xfer
    case Uploading(u) =>
      && u != Capture && s.app.Failed? && s.snapshotRunning && (u == SnapshotOff ==> !s.snapshotPending)
      && !s.net.ModelGuard? && !s.net.SnapshotGuard?
    case _ =>
      && !s.snapshotPending && !s.snapshotRunning
      && (s.net.SnapshotGuard? ==> s.net.step == AskPending)
  }

  lemma AbsorbBusy(s: State, b: Busy)
    requires Absorbing(s) && Guards(s)
    ensures s.net == Restarting(b) ==> Absorbing(RestartNext(s, b))
    ensures s.net == Retrying(b) ==> Absorbing(RetryNext(s, b))
  {
    match b
    case AskModel =>
    case AskSnapshot =>
    case TearDown =>
  }

  lemma AbsorbDispatch(s: State, c: Choice)
    requires Absorbing(s) && s.net.Dispatch?
    ensures Absorbing(DispatchNext(s, c))
  {
    hide Connected;
    match s.app
    case Idle =>
    case Running =>
    case Failed =>
  }

  lemma AbsorbGuards(s: State, step: Start, c: Choice)
    requires Absorbing(s)
    ensures s.net == ModelGuard(step) ==> Absorbing(ModelGuardNext(s, step, c))
    ensures s.net == SnapshotGuard(step) ==> Absorbing(SnapshotGuardNext(s, step))
  {
    match step
    case AskPending =>
    case AskRunning =>
    case Decide =>
    case SetRunning =>
    case Notify =>
  }

  lemma AbsorbNet(s: State, c: Choice)
    requires Absorbing(s) && Guards(s)
    ensures Absorbing(NetNext(s, c))
  {
    hide RestartNext, RetryNext, DispatchNext, ModelGuardNext, SnapshotGuardNext, Guards;
    match s.net
    case Top =>
    case Restarting(b) => AbsorbBusy(s, b);
    case Dispatch => AbsorbDispatch(s, c);
    case ModelGuard(step) => AbsorbGuards(s, step, c);
    case SnapshotGuard(step) => AbsorbGuards(s, step, c);
    case Retrying(b) => AbsorbBusy(s, b);
  }

  lemma AbsorbPush(s: State, p: Push, c: Choice)
    requires Absorbing(s) && s.xfer == Pushing(p)
    ensures Absorbing(PushNext(s, p, c))
  {
    hide Final, Queued;
    match p
    case Enter =>
    case Download(_) =>
    case FreeStrings =>
    case ClearPending =>
    case ModelOff =>
  }

  lemma AbsorbXfer(s: State, c: Choice)
    requires Absorbing(s)
    ensures Absorbing(XferNext(s, c))
  {
    hide PushNext;
    match s.xfer
    case Blocked =>
    case CheckModel =>
    case Pushing(p) => AbsorbPush(s, p, c);
    case CheckSnapshot =>
    case Uploading(u) =>
      match u
      case Capture =>
      case ClearSnapshot =>
      case SnapshotOff =>
  }

  lemma AbsorbStep(s: State, a: Action)
    requires Absorbing(s) && Reach(s) && a != RequestSnapshot
    ensures Absorbing(Next(s, a))
  {
    hide NetNext, XferNext, MqttNext, Guards, Wakes;
    match a
    case NetStep(c) => AbsorbNet(s, c);
    case XferStep(c) => AbsorbXfer(s, c);
    case MqttStep(wantsAck) => FrameMqtt(s, wantsAck);
    case RequestRestart =>
  }

  predicate NoSnapshotRequest(run: seq<Action>) {
    forall i :: 0 <= i < |run| ==> run[i] != RequestSnapshot
  }

  lemma {:induction false} Absorbed(s: State, run: seq<Action>)
    requires Absorbing(s) && Reach(s) && NoSnapshotRequest(run)
    ensures Absorbing(Exec(s, run)) && Reach(Exec(s, run))
  {
    hide Absorbing, Reach, Next;
    if run != [] {
      var n := |run| - 1;
      Absorbed(s, run[..n]);
      AbsorbStep(Exec(s, run[..n]), run[n]);
      ReachStep(Exec(s, run[..n]), run[n]);
    }
  }

  lemma AbsorbingStart(s: State)
    requires Reach(s) && s.xfer == Uploading(ClearSnapshot) && s.app.Failed?
    ensures Absorbing(s)
  {
  }

  lemma AbsorbingNoCapture(s: State)
    requires Absorbing(s)
    ensures s.xfer != Uploading(Capture)
  {
  }

  lemma InternalAsksNothing(s0: State, run: seq<Action>)
    requires Along(s0, run)
    ensures NoSnapshotRequest(run)
  {
  }

  /**
   A snapshot asked for is taken.  Whatever the schedule so far, while the request is up it can be continued,
   without another request, to a capture; the one exception is a request made after the capture of an upload
   still under way while the connection has failed: that upload lowers its flag for good.
   */
  lemma SnapshotServedIff(run: seq<Action>)
    requires Exec(INIT, run).snapshotPending
    ensures var s := Exec(INIT, run);
      (exists more :: NoSnapshotRequest(more) && Exec(s, more).xfer == Uploading(Capture))
      <==> !(s.xfer == Uploading(ClearSnapshot) && s.app.Failed?)
  {
    hide Exec, Reach, Absorbing, NoSnapshotRequest;
    ReachHolds(run);
    var s := Exec(INIT, run);
    if s.xfer == Uploading(ClearSnapshot) && s.app.Failed? {
      AbsorbingStart(s);
      forall more | NoSnapshotRequest(more) ensures Exec(s, more).xfer != Uploading(Capture) {
        Absorbed(s, more);
        AbsorbingNoCapture(Exec(s, more));
      }
    } else {
      var more;
      if s.xfer == Uploading(ClearSnapshot) {
        more := TakenAfterUpload(s);
      } else {
        more := TakenAtRest(s);
      }
      InternalAsksNothing(s, more);
    }
  }

  // ---------------------------------------------------------------- a snapshot's flags

  /** A request made once the upload has lowered the flag. */
  ghost predicate AskedLate(s: State, run: seq<Action>, n: nat) {
    exists i :: 0 <= i < n <= |run| && run[i] == RequestSnapshot && Exec(s, run[..i]).xfer == Uploading(SnapshotOff)
  }

  lemma ExecOne(s: State, run: seq<Action>, n: nat)
    requires n < |run|
    ensures Exec(s, run[..n + 1]) == Next(Exec(s, run[..n]), run[n])
  {
    assert run[..n + 1][..n] == run[..n];
  }

  lemma LateOne(s: State, run: seq<Action>, n: nat)
    requires n < |run|
    ensures AskedLate(s, run, n + 1)
       <==> AskedLate(s, run, n) || (run[n] == RequestSnapshot && Exec(s, run[..n]).xfer == Uploading(SnapshotOff))
  {
    hide Exec;
    if AskedLate(s, run, n + 1) {
      var i :| 0 <= i < n + 1 <= |run| && run[i] == RequestSnapshot && Exec(s, run[..i]).xfer == Uploading(SnapshotOff);
      if i < n {
        assert AskedLate(s, run, n);
      }
    }
    if AskedLate(s, run, n) {
      var i :| 0 <= i < n <= |run| && run[i] == RequestSnapshot && Exec(s, run[..i]).xfer == Uploading(SnapshotOff);
      assert 0 <= i < n + 1 <= |run|;
    }
  }

  /** What one step does to an upload and its flag. */
  lemma UploadStep(s: State, a: Action)
    requires s.xfer.Uploading?
    ensures var t := Next(s, a);
      if a.XferStep? then
        match s.xfer.upload
        case Capture => t.xfer == Uploading(ClearSnapshot)
        case ClearSnapshot => t.xfer == Uploading(SnapshotOff) && !t.snapshotPending
        case SnapshotOff => t.xfer.Blocked? && !t.snapshotRunning && t.snapshotPending == s.snapshotPending
      else t.xfer == s.xfer && t.snapshotPending == (s.snapshotPending || a == RequestSnapshot)
  {
    hide NetNext, MqttNext;
    match a
    case NetStep(c) => NetFrame(s, c);
    case XferStep(c) =>
    case MqttStep(wantsAck) => FrameMqtt(s, wantsAck);
    case RequestRestart =>
    case RequestSnapshot =>
  }

  lemma {:induction false} UploadFlag(s: State, run: seq<Action>, n: nat)
    requires s.xfer == Uploading(Capture) && n <= |run|
    requires forall i :: 0 <= i <= n ==> Exec(s, run[..i]).xfer.Uploading?
    ensures var t := Exec(s, run[..n]);
      if t.xfer == Uploading(SnapshotOff) then t.snapshotPending <==> AskedLate(s, run, n) else !AskedLate(s, run, n)
  {
    hide Exec, Next;
    if n == 0 {
      ExecNone(s);
      assert run[..0] == [];
    } else {
      UploadFlag(s, run, n - 1);
      ExecOne(s, run, n - 1);
      LateOne(s, run, n - 1);
      UploadStep(Exec(s, run[..n - 1]), run[n - 1]);
    }
  }

  /**
   When an upload ends, whatever went on beside it, its running flag is down, and the request flag is up
   exactly if a snapshot was asked for after the upload had lowered it.
   */
  lemma UploadEnds(s: State, run: seq<Action>)
    requires s.xfer == Uploading(Capture) && run != []
    requires forall i :: 0 <= i < |run| ==> Exec(s, run[..i]).xfer.Uploading?
    requires !Exec(s, run).xfer.Uploading?
    ensures var t := Exec(s, run);
      t.xfer.Blocked? && !t.snapshotRunning && (t.snapshotPending <==> AskedLate(s, run, |run|))
  {
    hide Exec, Next;
    var n := |run| - 1;
    UploadFlag(s, run, n);
    ExecOne(s, run, n);
    assert run[..n + 1] == run;
    LateOne(s, run, n);
    UploadStep(Exec(s, run[..n]), run[n]);
  }

  // ---------------------------------------------------------------- poll rounds

  datatype Kind = Model | Snapshot

  function GuardAt(k: Kind, step: Start): Net {
    match k
    case Model => ModelGuard(step)
    case Snapshot => SnapshotGuard(step)
  }

  predicate Asked(s: State, k: Kind) {
    match k
    case Model => s.modelPending
    case Snapshot => s.snapshotPending
  }

  predicate Busying(s: State, k: Kind) {
    match k
    case Model => s.modelRunning
    case Snapshot => s.snapshotRunning
  }

  /** The i-th step of a schedule is the net thread's, from `at`. */
  predicate NetAt(s: State, run: seq<Action>, i: nat, at: Net) {
    i < |run| && run[i].NetStep? && Exec(s, run[..i]).net == at
  }

  /** In the first `n` steps the running flag was raised by the guard. */
  ghost predicate Raised(s: State, run: seq<Action>, n: nat, k: Kind) {
    exists i :: 0 <= i < n <= |run| && NetAt(s, run, i, GuardAt(k, SetRunning)) && Busying(Exec(s, run[..i + 1]), k)
  }

  /** In the first `n` steps the transfer task was notified by the guard. */
  ghost predicate Notified(s: State, run: seq<Action>, n: nat, k: Kind) {
    exists i :: 0 <= i < n <= |run| && NetAt(s, run, i, GuardAt(k, Notify)) && Exec(s, run[..i + 1]).notified
  }

  /**
   What a step of the net thread meets: the connection holds, and at the guard the request is up, no such
   transfer runs, and there is heap.
   */
  predicate Meets(s: State, c: Choice, k: Kind) {
    && (s.net.Dispatch? || s.net == GuardAt(k, Decide) ==> c != First)
    && (s.net == GuardAt(k, AskPending) ==> Asked(s, k))
    && (s.net == GuardAt(k, AskRunning) ==> !Busying(s, k))
  }

  predicate Met(s: State, run: seq<Action>, k: Kind) {
    forall i :: 0 <= i < |run| && run[i].NetStep? ==> Meets(Exec(s, run[..i]), run[i].choice, k)
  }

  /** The round has not come to the end of the guard. */
  predicate Ahead(n: Net, k: Kind) {
    match n
    case Dispatch => true
    case ModelGuard(step) => k.Snapshot? || step != Notify
    case SnapshotGuard(step) => k.Snapshot? && step != Notify
    case _ => false
  }

  /** Where the next step leads. */
  predicate Leads(s: State, t: State, k: Kind) {
    && t.app == s.app
    && (s.net == GuardAt(k, SetRunning) ==> t.net == GuardAt(k, Notify) && Busying(t, k))
    && (s.net == GuardAt(k, Notify) ==> t.notified)
    && (Ahead(s.net, k) && s.net != GuardAt(k, SetRunning) ==> Ahead(t.net, k) && !t.net.Dispatch?)
  }

  lemma LeadsModel(s: State, step: Start, c: Choice, k: Kind)
    requires s.net == ModelGuard(step) && Meets(s, c, k)
    ensures Leads(s, ModelGuardNext(s, step, c), k)
  {
    match step
    case AskPending =>
    case AskRunning =>
    case Decide =>
    case SetRunning =>
    case Notify =>
  }

  lemma LeadsSnapshot(s: State, step: Start, c: Choice, k: Kind)
    requires s.net == SnapshotGuard(step) && Meets(s, c, k)
    ensures Leads(s, SnapshotGuardNext(s, step), k)
  {
    match step
    case AskPending =>
    case AskRunning =>
    case Decide =>
    case SetRunning =>
    case Notify =>
  }

  lemma LeadsDispatch(s: State, c: Choice, k: Kind)
    requires s.net.Dispatch? && s.app.Running? && c != First
    ensures Leads(s, DispatchNext(s, c), k)
  {
  }

  lemma RoundStep(s: State, c: Choice, k: Kind)
    requires (Ahead(s.net, k) || s.net == GuardAt(k, Notify)) && s.app.Running? && Meets(s, c, k)
    ensures Leads(s, NetNext(s, c), k)
  {
    hide ModelGuardNext, SnapshotGuardNext, DispatchNext, Leads;
    match s.net
    case Dispatch => LeadsDispatch(s, c, k);
    case ModelGuard(step) => LeadsModel(s, step, c, k);
    case SnapshotGuard(step) => LeadsSnapshot(s, step, c, k);
  }

  lemma Later(s: State, run: seq<Action>, m: nat, k: Kind)
    requires m < |run|
    ensures Raised(s, run, m, k) ==> Raised(s, run, m + 1, k)
    ensures Notified(s, run, m, k) ==> Notified(s, run, m + 1, k)
  {
    hide Exec, NetAt, Busying;
    if Raised(s, run, m, k) {
      var i :| 0 <= i < m <= |run| && NetAt(s, run, i, GuardAt(k, SetRunning)) && Busying(Exec(s, run[..i + 1]), k);
      assert 0 <= i < m + 1 <= |run|;
    }
    if Notified(s, run, m, k) {
      var i :| 0 <= i < m <= |run| && NetAt(s, run, i, GuardAt(k, Notify)) && Exec(s, run[..i + 1]).notified;
      assert 0 <= i < m + 1 <= |run|;
    }
  }

  lemma NetIsNext(s: State, a: Action)
    requires a.NetStep?
    ensures Next(s, a) == NetNext(s, a.choice)
  {
    hide NetNext;
  }

  lemma DispatchAhead(n: Net, k: Kind)
    requires n.Dispatch?
    ensures Ahead(n, k)
  {
  }

  lemma RoundRecords(s: State, run: seq<Action>, m: nat, k: Kind)
    requires m < |run| && run[m].NetStep?
    requires var t := Exec(s, run[..m]); Leads(t, Exec(s, run[..m + 1]), k)
    ensures Exec(s, run[..m]).net == GuardAt(k, SetRunning) ==> Raised(s, run, m + 1, k)
    ensures Exec(s, run[..m]).net == GuardAt(k, Notify) ==> Notified(s, run, m + 1, k)
  {
    hide Exec, Busying, Ahead;
    if Exec(s, run[..m]).net == GuardAt(k, SetRunning) {
      assert NetAt(s, run, m, GuardAt(k, SetRunning));
    }
    if Exec(s, run[..m]).net == GuardAt(k, Notify) {
      assert NetAt(s, run, m, GuardAt(k, Notify));
    }
  }

  lemma {:induction false} Round(s: State, run: seq<Action>, n: nat, k: Kind)
    requires s.net.Dispatch? && s.app.Running? && Met(s, run, k) && n <= |run|
    ensures var t := Exec(s, run[..n]);
      || (Ahead(t.net, k) && t.app.Running?)
      || (t.net == GuardAt(k, Notify) && t.app.Running? && Raised(s, run, n, k))
      || (Raised(s, run, n, k) && Notified(s, run, n, k))
  {
    hide Exec, Next, Meets, Ahead, Busying, Raised, Notified, NetNext;
    if n == 0 {
      ExecNone(s);
      assert run[..0] == [];
      assert Ahead(s.net, k) by {
        DispatchAhead(s.net, k);
      }
    } else {
      var m := n - 1;
      Round(s, run, m, k);
      ExecOne(s, run, m);
      Later(s, run, m, k);
      var t := Exec(s, run[..m]);
      if Raised(s, run, m, k) && Notified(s, run, m, k) {
      } else if run[m].NetStep? {
        NetIsNext(t, run[m]);
        RoundStep(t, run[m].choice, k);
        RoundRecords(s, run, m, k);
      } else {
        NetUntouched(t, run[m]);
      }
    }
  }

  lemma TopNotAhead(n: Net, k: Kind)
    requires n.Top?
    ensures !Ahead(n, k) && n != GuardAt(k, Notify)
  {
  }

  /**
   A round of a connected net thread that finds a request up and no such transfer running, with heap enough if
   it is a push, raises the running flag and notifies the transfer task, whatever the others do meanwhile.
   */
  lemma RoundStarts(s: State, run: seq<Action>, k: Kind)
    requires s.net.Dispatch? && s.app.Running? && Met(s, run, k) && Exec(s, run).net.Top?
    ensures Raised(s, run, |run|, k) && Notified(s, run, |run|, k)
  {
    hide Exec, Met, Raised, Notified, Ahead;
    Round(s, run, |run|, k);
    assert run[..|run|] == run;
    TopNotAhead(Exec(s, run).net, k);
  }
}
