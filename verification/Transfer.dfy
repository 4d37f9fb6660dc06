/**
 The deferred-transfer protocol of src/iotc/iotc_app.c.  The net thread, the MQTT pump task and the
 transfer task interleave on volatile flags and one task notification; every read or write of a flag is a
 step of its own.  The history kept beside it: the acknowledgments sent for model pushes, and which of the
 pushes with an ack id were accepted, were refused, and had their model queued for the swap.

 The three strings of a push (host, resource, ack id) are one slot, freed and filled as a whole.
 */
module Transfer {
  /** What the global string pointers hold: nothing, freed memory, or the strings of a push. */
  datatype Slot = Empty | Dangling | Holds(push: nat, ack: bool)

  datatype Ack = Downloading(push: nat)
               | Done(push: nat)
               | DownloadFailed(push: nat)
               | Refused(push: nat)

  datatype App = Idle | Running | Failed

  /** `prv_xfer_busy` before a teardown: the two flags are read one after the other. */
  datatype Busy = AskModel | AskSnapshot | TearDown

  /** The model guard of the RUNNING state and `prv_xfer_start`. */
  datatype Start = AskPending | AskRunning | Decide | SetRunning | Notify

  /** Where `iotc_app_poll` stands. */
  datatype Net = Top
               | Restarting(busy: Busy)
               | Dispatch
               | ModelGuard(step: Start)
               | SnapshotGuard(step: Start)
               | Retrying(busy: Busy)

  datatype Push = Enter | Download(using: Slot) | FreeStrings | ClearPending | ModelOff

  datatype Upload = Capture | ClearSnapshot | SnapshotOff

  /** Where the transfer task stands. */
  datatype Xfer = Blocked | CheckModel | Pushing(push: Push) | CheckSnapshot | Uploading(upload: Upload)

  datatype Accept = Ask | Announce | FreeOld | Duplicate | Raise

  /** Where `prv_on_ota` stands. */
  datatype Mqtt = Waiting | Handling(step: Accept, id: nat, ack: bool)

  datatype State = State(
    net: Net, xfer: Xfer, mqtt: Mqtt, app: App,
    modelPending: bool, modelRunning: bool, snapshotPending: bool, snapshotRunning: bool,
    restartReq: bool, notified: bool,
    slot: Slot, pushes: nat, trace: seq<Ack>, accepted: set<nat>, refused: set<nat>, swapped: set<nat>,
    teardowns: nat)

  const INIT :=
    State(Top, Blocked, Waiting, Idle, false, false, false, false, false, false, Empty, 0, [], {}, {}, {}, 0)

  /** What the model leaves open in a step: a connection, a heap figure, the end of a download. */
  datatype Choice = First | Second | Third

  /** One step of one party, or a request from the serial command line. */
  datatype Action = NetStep(choice: Choice)
                  | XferStep(choice: Choice)
                  | MqttStep(wantsAck: bool)
                  | RequestRestart
                  | RequestSnapshot

  // ---------------------------------------------------------------- the net thread

  function RestartNext(s: State, b: Busy): State {
    match b
    case AskModel => s.(net := if s.modelRunning then Dispatch else Restarting(AskSnapshot))
    case AskSnapshot => s.(net := if s.snapshotRunning then Dispatch else Restarting(TearDown))
    case TearDown => s.(net := Dispatch, restartReq := false, app := Idle, teardowns := s.teardowns + 1)
  }

  function RetryNext(s: State, b: Busy): State {
    match b
    case AskModel => s.(net := if s.modelRunning then Top else Retrying(AskSnapshot))
    case AskSnapshot => s.(net := if s.snapshotRunning then Top else Retrying(TearDown))
    case TearDown => s.(net := Top, app := Idle, teardowns := s.teardowns + 1)
  }

  /** The state after an attempt to connect: not possible yet, connected, or failed. */
  function Connected(c: Choice): App {
    match c
    case First => Idle
    case Second => Running
    case Third => Failed
  }

  function DispatchNext(s: State, c: Choice): State {
    match s.app
    case Idle => s.(net := Top, app := Connected(c))
    case Running => if c == First then s.(net := Top, app := Failed) else s.(net := ModelGuard(AskPending))
    case Failed => s.(net := if c == First then Top else Retrying(AskModel))
  }

  function ModelGuardNext(s: State, step: Start, c: Choice): State {
    match step
    case AskPending => s.(net := if s.modelPending then ModelGuard(AskRunning) else SnapshotGuard(AskPending))
    case AskRunning => s.(net := if s.modelRunning then SnapshotGuard(AskPending) else ModelGuard(Decide))
    case Decide => s.(net := if c == First then SnapshotGuard(AskPending) else ModelGuard(SetRunning))
    case SetRunning => s.(net := ModelGuard(Notify), modelRunning := true)
    case Notify => s.(net := SnapshotGuard(AskPending), notified := true)
  }

  function SnapshotGuardNext(s: State, step: Start): State {
    match step
    case AskPending => s.(net := if s.snapshotPending then SnapshotGuard(AskRunning) else Top)
    case AskRunning => s.(net := if s.snapshotRunning then Top else SnapshotGuard(SetRunning))
    case Decide => s.(net := SnapshotGuard(SetRunning))
    case SetRunning => s.(net := SnapshotGuard(Notify), snapshotRunning := true)
    case Notify => s.(net := Top, notified := true)
  }

  function NetNext(s: State, c: Choice): State {
    match s.net
    case Top => s.(net := if s.restartReq then Restarting(AskModel) else Dispatch)
    case Restarting(b) => RestartNext(s, b)
    case Dispatch => DispatchNext(s, c)
    case ModelGuard(step) => ModelGuardNext(s, step, c)
    case SnapshotGuard(step) => SnapshotGuardNext(s, step)
    case Retrying(b) => RetryNext(s, b)
  }

  // ---------------------------------------------------------------- the transfer task

  /** The acknowledgment that ends a download, for strings that carry an ack id. */
  function Final(using: Slot, ok: bool): seq<Ack> {
    if using.Holds? && using.ack then [if ok then Done(using.push) else DownloadFailed(using.push)] else []
  }

  /** The push, on record if it has an ack id, whose model a successful download queues for the swap. */
  function Queued(using: Slot, ok: bool): set<nat> {
    if using.Holds? && using.ack && ok then {using.push} else {}
  }

  /** `prv_model_push_execute`; a download that lost the heap leaves the push pending. */
  function PushNext(s: State, p: Push, c: Choice): State {
    match p
    case Enter => s.(xfer := Pushing(Download(s.slot)))
    case Download(using) =>
      if c == First then s.(xfer := Pushing(ModelOff))
      else s.(xfer := Pushing(FreeStrings), trace := s.trace + Final(using, c == Second),
              swapped := s.swapped + Queued(using, c == Second))
    case FreeStrings => s.(xfer := Pushing(ClearPending), slot := Empty)
    case ClearPending => s.(xfer := Pushing(ModelOff), modelPending := false)
    case ModelOff => s.(xfer := CheckSnapshot, modelRunning := false)
  }

  function UploadNext(s: State, u: Upload): State {
    match u
    case Capture => s.(xfer := Uploading(ClearSnapshot))
    case ClearSnapshot => s.(xfer := Uploading(SnapshotOff), snapshotPending := false)
    case SnapshotOff => s.(xfer := Blocked, snapshotRunning := false)
  }

  function XferNext(s: State, c: Choice): State {
    match s.xfer
    case Blocked => if s.notified then s.(xfer := CheckModel, notified := false) else s
    case CheckModel => s.(xfer := if s.modelRunning then Pushing(Enter) else CheckSnapshot)
    case Pushing(p) => PushNext(s, p, c)
    case CheckSnapshot => s.(xfer := if s.snapshotRunning then Uploading(Capture) else Blocked)
    case Uploading(u) => UploadNext(s, u)
  }

  // ---------------------------------------------------------------- the MQTT task

  /** The acknowledgment sent for a push that asked for one. */
  function Told(ack: bool, e: Ack): seq<Ack> {
    if ack then [e] else []
  }

  /** A push is on record under its id if it asked for acknowledgments. */
  function Asking(ack: bool, id: nat): set<nat> {
    if ack then {id} else {}
  }

  function AcceptNext(s: State, step: Accept, id: nat, ack: bool): State {
    match step
    case Ask =>
      if s.modelPending then
        s.(mqtt := Waiting, trace := s.trace + Told(ack, Refused(id)), refused := s.refused + Asking(ack, id))
      else s.(mqtt := Handling(Announce, id, ack))
    case Announce =>
      s.(mqtt := Handling(FreeOld, id, ack), trace := s.trace + Told(ack, Downloading(id)),
         accepted := s.accepted + Asking(ack, id))
    case FreeOld => s.(mqtt := Handling(Duplicate, id, ack), slot := if s.slot.Holds? then Dangling else s.slot)
    case Duplicate => s.(mqtt := Handling(Raise, id, ack), slot := Holds(id, ack))
    case Raise => s.(mqtt := Waiting, modelPending := true)
  }

  function MqttNext(s: State, wantsAck: bool): State {
    match s.mqtt
    case Waiting => s.(mqtt := Handling(Ask, s.pushes, wantsAck), pushes := s.pushes + 1)
    case Handling(step, id, ack) => AcceptNext(s, step, id, ack)
  }

  // ---------------------------------------------------------------- schedules

  function Next(s: State, a: Action): State {
    match a
    case NetStep(c) => NetNext(s, c)
    case XferStep(c) => XferNext(s, c)
    case MqttStep(wantsAck) => MqttNext(s, wantsAck)
    case RequestRestart => s.(restartReq := true)
    case RequestSnapshot => s.(snapshotPending := true)
  }

  /** The state after a whole schedule. */
  function Exec(s: State, run: seq<Action>): State {
    if run == [] then s else Next(Exec(s, run[..|run| - 1]), run[|run| - 1])
  }

  // ---------------------------------------------------------------- wake-ups and teardown

  /** The net thread has seen the model flag down and relies on it. */
  predicate SawModelIdle(n: Net) {
    match n
    case Restarting(b) => b != AskModel
    case Retrying(b) => b != AskModel
    case ModelGuard(step) => step == Decide || step == SetRunning
    case _ => false
  }

  predicate SawSnapshotIdle(n: Net) {
    match n
    case Restarting(b) => b == TearDown
    case Retrying(b) => b == TearDown
    case SnapshotGuard(step) => step == Decide || step == SetRunning
    case _ => false
  }

  /** A running transfer keeps its flag up, and the net thread has seen down what it acts on. */
  predicate Guards(s: State) {
    && (s.xfer.Pushing? ==> s.modelRunning)
    && (s.xfer.Uploading? ==> s.snapshotRunning)
    && (SawModelIdle(s.net) ==> !s.modelRunning)
    && (SawSnapshotIdle(s.net) ==> !s.snapshotRunning)
  }

  /** A flag that is up is being announced, has been announced, or is about to be looked at or lowered. */
  predicate Wakes(s: State) {
    && (s.modelRunning ==>
          s.net == ModelGuard(Notify) || s.notified || s.xfer.CheckModel? || s.xfer.Pushing?)
    && (s.snapshotRunning ==>
          s.net == SnapshotGuard(Notify) || s.notified || !s.xfer.Blocked?)
  }

  predicate Flags(s: State) {
    Guards(s) && Wakes(s)
  }

  lemma FlagsRestart(s: State, b: Busy)
    requires Flags(s) && s.net == Restarting(b)
    ensures Flags(RestartNext(s, b))
  {
  }

  lemma FlagsRetry(s: State, b: Busy)
    requires Flags(s) && s.net == Retrying(b)
    ensures Flags(RetryNext(s, b))
  {
  }

  lemma FlagsDispatch(s: State, c: Choice)
    requires Flags(s) && s.net.Dispatch?
    ensures Flags(DispatchNext(s, c))
  {
    hide Connected;
    match s.app
    case Idle =>
    case Running =>
      if c == First {
      }
    case Failed =>
      if c == First {
      }
  }

  lemma FlagsModelGuard(s: State, step: Start, c: Choice)
    requires Flags(s) && s.net == ModelGuard(step)
    ensures Flags(ModelGuardNext(s, step, c))
  {
    match step
    case AskPending =>
    case AskRunning =>
    case Decide =>
    case SetRunning =>
    case Notify =>
  }

  lemma FlagsSnapshotGuard(s: State, step: Start)
    requires Flags(s) && s.net == SnapshotGuard(step)
    ensures Flags(SnapshotGuardNext(s, step))
  {
  }

  lemma FlagsTop(s: State)
    requires Flags(s) && s.net.Top?
    ensures Flags(NetNext(s, First))
  {
  }

  lemma FlagsNet(s: State, c: Choice)
    requires Flags(s)
    ensures Flags(NetNext(s, c))
  {
    hide Flags, RestartNext, RetryNext, DispatchNext, ModelGuardNext, SnapshotGuardNext;
    match s.net
    case Top => FlagsTop(s);
    case Restarting(b) => FlagsRestart(s, b);
    case Dispatch => FlagsDispatch(s, c);
    case ModelGuard(step) => FlagsModelGuard(s, step, c);
    case SnapshotGuard(step) => FlagsSnapshotGuard(s, step);
    case Retrying(b) => FlagsRetry(s, b);
  }

  lemma FlagsPush(s: State, p: Push, c: Choice)
    requires Flags(s) && s.xfer == Pushing(p)
    ensures Flags(PushNext(s, p, c))
  {
    hide Final;
  }

  lemma FlagsUpload(s: State, u: Upload)
    requires Flags(s) && s.xfer == Uploading(u)
    ensures Flags(UploadNext(s, u))
  {
  }

  lemma FlagsXfer(s: State, c: Choice)
    requires Flags(s)
    ensures Flags(XferNext(s, c))
  {
    hide PushNext, UploadNext, SawModelIdle, SawSnapshotIdle;
    match s.xfer
    case Pushing(p) => FlagsPush(s, p, c);
    case Uploading(u) => FlagsUpload(s, u);
    case _ =>
  }

  /** What the MQTT task leaves alone. */
  predicate MqttKeeps(s: State, t: State) {
    && t.net == s.net && t.xfer == s.xfer && t.app == s.app && t.teardowns == s.teardowns
    && t.modelRunning == s.modelRunning && t.snapshotRunning == s.snapshotRunning && t.notified == s.notified
    && t.snapshotPending == s.snapshotPending
  }

  lemma FrameAccept(s: State, step: Accept, id: nat, ack: bool)
    ensures MqttKeeps(s, AcceptNext(s, step, id, ack))
  {
    hide Told, Asking;
    match step
    case Ask =>
    case Announce =>
    case FreeOld =>
    case Duplicate =>
    case Raise =>
  }

  lemma FrameMqtt(s: State, wantsAck: bool)
    ensures MqttKeeps(s, MqttNext(s, wantsAck))
  {
    hide AcceptNext;
    match s.mqtt
    case Waiting =>
    case Handling(step, id, ack) => FrameAccept(s, step, id, ack);
  }

  lemma FlagsKept(s: State, t: State)
    requires Flags(s) && MqttKeeps(s, t)
    ensures Flags(t)
  {
    hide SawModelIdle, SawSnapshotIdle;
  }

  lemma FlagsMqtt(s: State, wantsAck: bool)
    requires Flags(s)
    ensures Flags(MqttNext(s, wantsAck))
  {
    hide Flags, MqttNext, MqttKeeps;
    FrameMqtt(s, wantsAck);
    FlagsKept(s, MqttNext(s, wantsAck));
  }

  lemma FlagsStep(s: State, a: Action)
    requires Flags(s)
    ensures Flags(Next(s, a))
  {
    hide NetNext, XferNext, MqttNext;
    match a
    case NetStep(c) => FlagsNet(s, c);
    case XferStep(c) => FlagsXfer(s, c);
    case MqttStep(wantsAck) => FlagsMqtt(s, wantsAck);
    case _ =>
  }

  lemma {:induction false} FlagsHold(run: seq<Action>)
    ensures Flags(Exec(INIT, run))
  {
    hide Next;
    if run != [] {
      FlagsHold(run[..|run| - 1]);
      FlagsStep(Exec(INIT, run[..|run| - 1]), run[|run| - 1]);
    }
  }

  /** No wake-up is lost: a blocked transfer task with no notification has nothing to do. */
  lemma NoLostWakeUp(run: seq<Action>)
    ensures var s := Exec(INIT, run);
      s.xfer.Blocked? && !s.notified && s.net != ModelGuard(Notify) && s.net != SnapshotGuard(Notify) ==>
        !s.modelRunning && !s.snapshotRunning
  {
    hide Exec;
    FlagsHold(run);
  }

  /** Nothing happens to any push. */
  predicate SamePush(s: State, t: State) {
    && t.mqtt == s.mqtt && t.slot == s.slot && t.pushes == s.pushes && t.modelPending == s.modelPending
    && t.trace == s.trace && t.accepted == s.accepted && t.refused == s.refused && t.swapped == s.swapped
  }

  /** What the net thread leaves alone; it may raise the model flag. */
  predicate NetKeeps(s: State, t: State, raises: bool) {
    && SamePush(s, t) && t.xfer == s.xfer && t.snapshotPending == s.snapshotPending
    && t.modelRunning == (s.modelRunning || raises)
  }

  lemma FrameBusy(s: State, b: Busy)
    ensures NetKeeps(s, RestartNext(s, b), false) && NetKeeps(s, RetryNext(s, b), false)
  {
    match b
    case AskModel =>
    case AskSnapshot =>
    case TearDown =>
  }

  lemma FrameDispatch(s: State, c: Choice)
    ensures NetKeeps(s, DispatchNext(s, c), false) && DispatchNext(s, c).teardowns == s.teardowns
  {
    hide Connected;
    match s.app
    case Idle =>
    case Running =>
      if c == First {
      }
    case Failed =>
      if c == First {
      }
  }

  lemma FrameModelGuard(s: State, step: Start, c: Choice)
    ensures NetKeeps(s, ModelGuardNext(s, step, c), step == SetRunning)
    ensures ModelGuardNext(s, step, c).teardowns == s.teardowns
  {
    match step
    case AskPending =>
    case AskRunning =>
    case Decide =>
    case SetRunning =>
    case Notify =>
  }

  lemma FrameSnapshotGuard(s: State, step: Start)
    ensures NetKeeps(s, SnapshotGuardNext(s, step), false) && SnapshotGuardNext(s, step).teardowns == s.teardowns
  {
    match step
    case AskPending =>
    case AskRunning =>
    case Decide =>
    case SetRunning =>
    case Notify =>
  }

  lemma NetFrame(s: State, c: Choice)
    ensures NetKeeps(s, NetNext(s, c), s.net == ModelGuard(SetRunning))
  {
    hide RestartNext, RetryNext, DispatchNext, ModelGuardNext, SnapshotGuardNext;
    match s.net
    case Top =>
    case Restarting(b) => FrameBusy(s, b);
    case Dispatch => FrameDispatch(s, c);
    case ModelGuard(step) => FrameModelGuard(s, step, c);
    case SnapshotGuard(step) => FrameSnapshotGuard(s, step);
    case Retrying(b) => FrameBusy(s, b);
  }

  /** What the transfer task leaves alone. */
  predicate NetSame(s: State, t: State) {
    t.net == s.net && t.app == s.app && t.teardowns == s.teardowns
  }

  lemma FramePush(s: State, p: Push, c: Choice)
    ensures NetSame(s, PushNext(s, p, c))
  {
    hide Final, Queued;
    match p
    case Enter =>
    case Download(_) =>
      if c == First {
      }
    case FreeStrings =>
    case ClearPending =>
    case ModelOff =>
  }

  /** What it leaves alone outside a push. */
  predicate XferKeeps(s: State, t: State) {
    && SamePush(s, t) && NetSame(s, t) && t.modelRunning == s.modelRunning
    && (t.xfer.Pushing? ==> t.xfer == Pushing(Enter) && s.modelRunning)
  }

  lemma FrameUpload(s: State, u: Upload)
    ensures XferKeeps(s, UploadNext(s, u))
  {
    match u
    case Capture =>
    case ClearSnapshot =>
    case SnapshotOff =>
  }

  lemma FrameXfer(s: State, c: Choice)
    requires !s.xfer.Pushing?
    ensures XferKeeps(s, XferNext(s, c))
  {
    hide UploadNext;
    match s.xfer
    case Blocked =>
    case CheckModel =>
    case CheckSnapshot =>
    case Uploading(u) => FrameUpload(s, u);
  }

  lemma NetUntouched(s: State, a: Action)
    requires !a.NetStep?
    ensures NetSame(s, Next(s, a))
  {
    hide PushNext, UploadNext, MqttNext, SamePush;
    match a
    case XferStep(c) =>
      if s.xfer.Pushing? {
        FramePush(s, s.xfer.push, c);
      } else {
        FrameXfer(s, c);
      }
    case MqttStep(wantsAck) => FrameMqtt(s, wantsAck);
    case RequestRestart =>
    case RequestSnapshot =>
  }

  lemma TearDownStep(s: State, a: Action)
    requires Flags(s) && Next(s, a).teardowns != s.teardowns
    ensures !s.modelRunning && !s.snapshotRunning && !s.xfer.Pushing? && !s.xfer.Uploading?
  {
    hide PushNext, UploadNext, AcceptNext, Wakes, DispatchNext, ModelGuardNext, SnapshotGuardNext;
    if a.NetStep? {
      match s.net
      case Dispatch => FrameDispatch(s, a.choice);
      case ModelGuard(step) => FrameModelGuard(s, step, a.choice);
      case SnapshotGuard(step) => FrameSnapshotGuard(s, step);
      case _ =>
    } else {
      NetUntouched(s, a);
    }
  }

  /** The connection is never torn down under a transfer. */
  lemma SafeTearDown(run: seq<Action>, a: Action)
    requires Exec(INIT, run + [a]).teardowns != Exec(INIT, run).teardowns
    ensures var s := Exec(INIT, run);
      !s.modelRunning && !s.snapshotRunning && !s.xfer.Pushing? && !s.xfer.Uploading?
  {
    hide Flags, Next;
    FlagsHold(run);
    assert (run + [a])[..|run|] == run;
    TearDownStep(Exec(INIT, run), a);
  }

  // ---------------------------------------------------------------- the strings of a push

  /**
   The model transfer is started although no push is pending: the pending flag was read while an earlier
   push was being finished, and the running flag after that.
   */
  predicate StaleStart(s: State, a: Action) {
    s.net == ModelGuard(SetRunning) && a.NetStep? && !s.modelPending
  }

  /** A schedule from `s` without a stale start. */
  predicate Guarded(s: State, run: seq<Action>) {
    run == []
    || (Guarded(s, run[..|run| - 1]) && !StaleStart(Exec(s, run[..|run| - 1]), run[|run| - 1]))
  }

  /** A download finds strings in place, and nobody frees or replaces them while it runs. */
  predicate InPlace(s: State) {
    s.xfer.Pushing? && (s.xfer.push.Enter? || s.xfer.push.Download?) ==>
      s.slot.Holds? && (s.xfer.push.Download? ==> s.xfer.push.using == s.slot)
  }

  predicate Accepting(s: State) {
    match s.mqtt
    case Waiting => !s.modelPending ==> s.slot.Empty?
    case Handling(step, id, ack) =>
      && id < s.pushes
      && (step != Ask ==> !s.modelPending)
      && (step == Raise ==> s.slot == Holds(id, ack))
      && (step != Raise ==> (!s.modelPending ==> s.slot.Empty?) && (s.slot.Holds? ==> s.slot.push != id))
  }

  /** How the strings, the pending flag and the two tasks hang together. */
  predicate Strings(s: State) {
    && Guards(s)
    && InPlace(s)
    && (s.slot.Holds? ==> s.slot.push < s.pushes)
    && !s.slot.Dangling?
    && (s.xfer.Pushing? && !s.xfer.push.ModelOff? ==> s.modelPending)
    && (s.modelRunning && !(s.xfer.Pushing? && s.xfer.push.ModelOff?) ==> s.modelPending)
    && (s.xfer == Pushing(ClearPending) ==> s.slot.Empty?)
    && (s.modelPending && s.xfer != Pushing(ClearPending) ==> s.slot.Holds?)
    && Accepting(s)
  }

  lemma StringsNet(s: State, c: Choice)
    requires Strings(s) && !StaleStart(s, NetStep(c)) && Guards(NetNext(s, c))
    ensures Strings(NetNext(s, c))
  {
    hide Guards;
    NetFrame(s, c);
  }

  lemma GuardsMeaning(s: State)
    requires Guards(s)
    ensures s.xfer.Pushing? ==> s.modelRunning
  {
  }

  lemma StringsPush(s: State, p: Push, c: Choice)
    requires Strings(s) && s.xfer == Pushing(p) && Guards(PushNext(s, p, c))
    ensures Strings(PushNext(s, p, c))
  {
    hide Guards, Final, Queued;
    assert s.modelRunning by {
      GuardsMeaning(s);
    }
    match p
    case Enter =>
    case Download(_) =>
    case FreeStrings =>
    case ClearPending =>
    case ModelOff =>
  }

  lemma StringsKept(s: State, t: State)
    requires Strings(s) && Guards(t) && !s.xfer.Pushing? && XferKeeps(s, t)
    ensures Strings(t)
  {
    hide Guards;
  }

  lemma StringsXfer(s: State, c: Choice)
    requires Strings(s) && Guards(XferNext(s, c))
    ensures Strings(XferNext(s, c))
  {
    hide Strings, Guards, XferKeeps, PushNext, UploadNext;
    if s.xfer.Pushing? {
      StringsPush(s, s.xfer.push, c);
    } else {
      FrameXfer(s, c);
      StringsKept(s, XferNext(s, c));
    }
  }

  lemma StringsAccept(s: State, step: Accept, id: nat, ack: bool)
    requires Strings(s) && s.mqtt == Handling(step, id, ack) && Guards(AcceptNext(s, step, id, ack))
    ensures Strings(AcceptNext(s, step, id, ack))
  {
    hide Guards, Told, Asking;
    GuardsMeaning(s);
    match step
    case Ask =>
    case Announce =>
    case FreeOld =>
    case Duplicate =>
    case Raise =>
  }

  lemma StringsMqtt(s: State, wantsAck: bool)
    requires Strings(s) && Guards(MqttNext(s, wantsAck))
    ensures Strings(MqttNext(s, wantsAck))
  {
    hide Guards, AcceptNext;
    match s.mqtt
    case Waiting =>
    case Handling(step, id, ack) => StringsAccept(s, step, id, ack);
  }

  // ---------------------------------------------------------------- the acknowledgments of a push

  /** The acknowledgments carrying one push's id, in the order sent. */
  function Of(trace: seq<Ack>, p: nat): seq<Ack> {
    if trace == [] then []
    else
      var n := |trace| - 1;
      Of(trace[..n], p) + (if trace[n].push == p then [trace[n]] else [])
  }

  lemma OfMore(trace: seq<Ack>, e: Ack, p: nat)
    ensures Of(trace + [e], p) == Of(trace, p) + (if e.push == p then [e] else [])
  {
    assert (trace + [e])[..|trace|] == trace;
  }

  lemma OfTold(trace: seq<Ack>, ack: bool, e: Ack, p: nat)
    ensures Of(trace + Told(ack, e), p) == Of(trace, p) + (if ack && e.push == p then [e] else [])
  {
    hide Of;
    if ack {
      OfMore(trace, e, p);
    } else {
      assert trace + [] == trace;
    }
  }

  /** The final acknowledgment was sent and the strings are being let go. */
  predicate Finishing(x: Xfer) {
    x == Pushing(FreeStrings) || x == Pushing(ClearPending)
  }

  /** A push with an ack id is being accepted or is pending, and its download has not ended. */
  predicate Open(s: State, p: nat) {
    || (s.mqtt.Handling? && s.mqtt.id == p && s.mqtt.ack && s.mqtt.step != Ask && s.mqtt.step != Announce)
    || (s.modelPending && s.slot == Holds(p, true) && !Finishing(s.xfer))
  }

  predicate NotYet(s: State, p: nat) {
    p >= s.pushes || (s.mqtt.Handling? && s.mqtt.id == p && (s.mqtt.step == Ask || s.mqtt.step == Announce))
  }

  /**
   What a push must have been told: DOWNLOADING if it was accepted, and its one outcome unless that is
   still open; the refusal if it was refused; otherwise nothing.
   */
  function Due(s: State, p: nat): seq<Ack> {
    if p in s.accepted then
      if Open(s, p) then [Downloading(p)]
      else [Downloading(p), if p in s.swapped then Done(p) else DownloadFailed(p)]
    else if p in s.refused then [Refused(p)]
    else []
  }

  /** One push has been told exactly what is due, and the records about it agree. */
  predicate AckFor(s: State, p: nat) {
    && Of(s.trace, p) == Due(s, p)
    && (Open(s, p) ==> p in s.accepted && p !in s.swapped)
    && (NotYet(s, p) ==> p !in s.accepted && p !in s.refused && p !in s.swapped)
    && !(p in s.accepted && p in s.refused)
  }

  /** A step that does nothing to any push. */
  lemma AckKept(s: State, t: State, p: nat)
    requires AckFor(s, p) && SamePush(s, t) && Finishing(t.xfer) == Finishing(s.xfer)
    ensures AckFor(t, p)
  {
    hide Of, Finishing;
  }

  lemma AckNet(s: State, c: Choice, p: nat)
    requires AckFor(s, p)
    ensures AckFor(NetNext(s, c), p)
  {
    hide AckFor, NetNext;
    NetFrame(s, c);
    AckKept(s, NetNext(s, c), p);
  }

  /** While a push is pending no other is being accepted, so a download's own push is the open one. */
  lemma OnePush(s: State, p: nat)
    requires Strings(s) && s.modelPending && s.slot.Holds? && !Finishing(s.xfer)
    ensures Open(s, p) <==> s.slot == Holds(p, true)
    ensures s.mqtt.Handling? ==> s.mqtt.step == Ask
    ensures NotYet(s, p) ==> s.slot.push != p
  {
    hide Guards, InPlace;
  }

  /** The end of a download: its push, and no other, is told the outcome. */
  lemma AckOutcome(s: State, ok: bool, p: nat)
    requires Strings(s) && AckFor(s, p) && s.xfer == Pushing(Download(s.slot))
    ensures AckFor(s.(xfer := Pushing(FreeStrings), trace := s.trace + Final(s.slot, ok),
                      swapped := s.swapped + Queued(s.slot, ok)), p)
  {
    hide Of, Guards, Accepting;
    var using := s.slot;
    var e := if ok then Done(using.push) else DownloadFailed(using.push);
    OfTold(s.trace, using.ack, e, p);
    assert Final(using, ok) == Told(using.ack, e);
    OnePush(s, p);
    assert [Downloading(p)] + [e] == [Downloading(p), e];
  }

  lemma AckPush(s: State, push: Push, c: Choice, p: nat)
    requires Strings(s) && AckFor(s, p) && s.xfer == Pushing(push)
    ensures AckFor(PushNext(s, push, c), p)
  {
    hide Of, Guards, Accepting, Final, Queued;
    match push
    case Enter =>
    case Download(using) =>
      if c != First {
        AckOutcome(s, c == Second, p);
      }
    case FreeStrings =>
    case ClearPending =>
    case ModelOff =>
  }

  lemma AckXfer(s: State, c: Choice, p: nat)
    requires Strings(s) && AckFor(s, p)
    ensures AckFor(XferNext(s, c), p)
  {
    hide PushNext, UploadNext, Strings, AckFor, SamePush;
    if s.xfer.Pushing? {
      AckPush(s, s.xfer.push, c, p);
    } else {
      FrameXfer(s, c);
      AckKept(s, XferNext(s, c), p);
    }
  }

  /** A push is refused while another is pending. */
  lemma AckAsk(s: State, id: nat, ack: bool, p: nat)
    requires AckFor(s, p) && s.mqtt == Handling(Ask, id, ack) && id < s.pushes
    ensures AckFor(AcceptNext(s, Ask, id, ack), p)
  {
    hide Of, Told, Finishing;
    OfTold(s.trace, ack, Refused(id), p);
    assert [] + [Refused(id)] == [Refused(id)];
  }

  /** A push is accepted. */
  lemma AckAnnounce(s: State, id: nat, ack: bool, p: nat)
    requires AckFor(s, p) && s.mqtt == Handling(Announce, id, ack) && id < s.pushes && !s.modelPending
    ensures AckFor(AcceptNext(s, Announce, id, ack), p)
  {
    hide Of, Told, Finishing;
    OfTold(s.trace, ack, Downloading(id), p);
    assert [] + [Downloading(id)] == [Downloading(id)];
  }

  /** Its strings are put in place, and it becomes pending. */
  lemma AckRaise(s: State, step: Accept, id: nat, ack: bool, p: nat)
    requires AckFor(s, p) && s.mqtt == Handling(step, id, ack) && !s.modelPending && !Finishing(s.xfer)
    requires step == FreeOld || step == Duplicate || (step == Raise && s.slot == Holds(id, ack))
    ensures AckFor(AcceptNext(s, step, id, ack), p)
  {
    hide Of, Finishing;
    match step
    case FreeOld =>
    case Duplicate =>
    case Raise =>
  }

  lemma AckAccept(s: State, step: Accept, id: nat, ack: bool, p: nat)
    requires Strings(s) && AckFor(s, p) && s.mqtt == Handling(step, id, ack)
    ensures AckFor(AcceptNext(s, step, id, ack), p)
  {
    hide AckFor, AcceptNext, Guards, InPlace;
    match step
    case Ask => AckAsk(s, id, ack, p);
    case Announce => AckAnnounce(s, id, ack, p);
    case _ => AckRaise(s, step, id, ack, p);
  }

  lemma AckMqtt(s: State, wantsAck: bool, p: nat)
    requires Strings(s) && AckFor(s, p)
    ensures AckFor(MqttNext(s, wantsAck), p)
  {
    hide Of, Guards, InPlace, AcceptNext;
    match s.mqtt
    case Waiting =>
    case Handling(step, id, ack) => AckAccept(s, step, id, ack, p);
  }

  // ---------------------------------------------------------------- whole schedules

  predicate Sound(s: State, p: nat) {
    Flags(s) && Strings(s) && AckFor(s, p)
  }

  lemma RequestsKeep(s: State, p: nat)
    requires Strings(s) && AckFor(s, p)
    ensures Strings(s.(restartReq := true)) && Strings(s.(snapshotPending := true))
    ensures AckFor(s.(restartReq := true), p) && AckFor(s.(snapshotPending := true), p)
  {
    hide Of;
  }

  lemma SoundStep(s: State, a: Action, p: nat)
    requires Sound(s, p) && !StaleStart(s, a)
    ensures Sound(Next(s, a), p)
  {
    hide AckFor, NetNext, XferNext, MqttNext, Wakes, InPlace, Accepting;
    FlagsStep(s, a);
    match a
    case NetStep(c) =>
      StringsNet(s, c);
      AckNet(s, c, p);
    case XferStep(c) =>
      StringsXfer(s, c);
      AckXfer(s, c, p);
    case MqttStep(wantsAck) =>
      StringsMqtt(s, wantsAck);
      AckMqtt(s, wantsAck, p);
    case RequestRestart =>
      RequestsKeep(s, p);
    case RequestSnapshot =>
      RequestsKeep(s, p);
  }

  lemma {:induction false} SoundRun(s: State, run: seq<Action>, p: nat)
    requires Sound(s, p) && Guarded(s, run)
    ensures Sound(Exec(s, run), p)
  {
    hide Sound, Next, StaleStart;
    if run != [] {
      SoundRun(s, run[..|run| - 1], p);
      SoundStep(Exec(s, run[..|run| - 1]), run[|run| - 1], p);
    }
  }

  lemma SoundInit(p: nat)
    ensures Sound(INIT, p)
  {
  }

  /**
   In every schedule without a stale start, and whatever the number of retries: an accepted push that asked
   for acknowledgments was told DOWNLOADING, and then nothing more while its outcome is open, and exactly one
   outcome otherwise: DONE if its model was queued for the swap, DOWNLOAD_FAILED if not.  Every refused push
   that asked was told so, and no push was told anything else.  The outcome is open only while the push is
   being accepted or is pending.  A download always runs for a pending push, with that push's strings, which
   nobody frees or replaces.
   */
  lemma AckProtocol(run: seq<Action>, p: nat)
    requires Guarded(INIT, run)
    ensures var s := Exec(INIT, run);
      && Of(s.trace, p) == Due(s, p)
      && !(p in s.accepted && p in s.refused)
      && (s.mqtt.Waiting? && !s.modelPending ==> !Open(s, p))
      && InPlace(s)
      && (s.xfer.Pushing? && !s.xfer.push.ModelOff? ==> s.modelPending)
  {
    hide Exec, Guarded, Of, Due, Flags;
    SoundInit(p);
    SoundRun(INIT, run, p);
  }

  /** The properties the protocol is meant to have, at one state. */
  ghost predicate Safe(s: State) {
    InPlace(s) && forall p: nat :: AckFor(s, p)
  }

  lemma SoundSafe(s: State)
    requires forall p: nat :: Sound(s, p)
    ensures Safe(s)
  {
    hide AckFor;
    assert Sound(s, 0);
    forall p: nat ensures AckFor(s, p) {
      assert Sound(s, p);
    }
  }

  // ---------------------------------------------------------------- driving a schedule

  lemma ExecNone(s: State)
    ensures Exec(s, []) == s && Guarded(s, [])
  {
  }

  /** One more step of a schedule. */
  lemma Go(s0: State, run: seq<Action>, a: Action) returns (more: seq<Action>)
    requires Guarded(s0, run) && !StaleStart(Exec(s0, run), a)
    ensures more == run + [a] && Guarded(s0, more) && Exec(s0, more) == Next(Exec(s0, run), a)
  {
    hide Next, StaleStart;
    more := run + [a];
    assert more[..|run|] == run;
  }

  function Rank(x: Xfer): nat {
    match x
    case Uploading(Capture) => 6
    case Uploading(ClearSnapshot) => 5
    case Uploading(SnapshotOff) => 4
    case CheckSnapshot => 7
    case Blocked => 3
    case CheckModel => 2
    case Pushing(_) => 1
  }

  lemma UploadComesRound(s: State, u: Upload)
    requires s.xfer == Uploading(u)
    ensures Rank(UploadNext(s, u).xfer) < Rank(s.xfer) && UploadNext(s, u).notified == s.notified
    ensures !UploadNext(s, u).xfer.Pushing?
  {
    match u
    case Capture =>
    case ClearSnapshot =>
    case SnapshotOff =>
  }

  lemma XferComesRound(s: State, c: Choice)
    requires s.notified && s.modelRunning && !s.xfer.Pushing?
    ensures var t := XferNext(s, c);
      && XferKeeps(s, t) && Rank(t.xfer) < Rank(s.xfer)
      && (t.xfer.Pushing? || (t.xfer.CheckModel? && !t.notified) || t.notified)
      && (s.xfer.Blocked? ==> t.xfer.CheckModel?) && (s.xfer.CheckModel? ==> t.xfer == Pushing(Enter))
      && (!s.xfer.Blocked? && !s.xfer.CheckModel? ==> t.notified && !t.xfer.Pushing?)
  {
    hide UploadNext, XferKeeps;
    FrameXfer(s, c);
    match s.xfer
    case Blocked =>
    case CheckModel =>
    case CheckSnapshot =>
    case Uploading(u) => UploadComesRound(s, u);
  }

  lemma KeepsTwice(s: State, t: State, u: State)
    requires XferKeeps(s, t) && XferKeeps(t, u)
    ensures XferKeeps(s, u)
  {
  }

  lemma EnterNext(s: State, c: Choice)
    requires s.xfer.CheckModel? && s.modelRunning
    ensures XferKeeps(s, XferNext(s, c)) && XferNext(s, c).xfer == Pushing(Enter)
  {
  }

  /** Once notified, the transfer task can come round to the model without anyone else moving. */
  lemma {:induction false} ReachEnter(s0: State, run: seq<Action>) returns (more: seq<Action>)
    requires Guarded(s0, run)
    requires var s := Exec(s0, run); s.modelRunning && s.notified && !s.xfer.Pushing?
    ensures Guarded(s0, more)
    ensures Exec(s0, more).xfer == Pushing(Enter) && XferKeeps(Exec(s0, run), Exec(s0, more))
    decreases Rank(Exec(s0, run).xfer)
  {
    hide Exec, Guarded, XferNext, Rank, SamePush;
    var s := Exec(s0, run);
    more := Go(s0, run, XferStep(First));
    XferComesRound(s, First);
    var t := Exec(s0, more);
    if s.xfer.Blocked? {
      more := Go(s0, more, XferStep(First));
      EnterNext(t, First);
      KeepsTwice(s, t, Exec(s0, more));
    } else if !s.xfer.CheckModel? {
      more := ReachEnter(s0, more);
      KeepsTwice(s, t, Exec(s0, more));
    }
  }

  /** The transfer task, given the notification, enters the download. */
  lemma DriveToEnter(s0: State, run: seq<Action>) returns (more: seq<Action>)
    requires Guarded(s0, run)
    requires var s := Exec(s0, run); s.net == ModelGuard(Notify) && s.modelRunning && !s.xfer.Pushing?
    ensures Guarded(s0, more)
    ensures var s := Exec(s0, run); var t := Exec(s0, more);
      && t.xfer == Pushing(Enter) && SamePush(s, t) && t.modelRunning
      && t.net == SnapshotGuard(AskPending) && t.app == s.app
  {
    hide Exec, Guarded;
    more := Go(s0, run, NetStep(First));
    more := ReachEnter(s0, more);
  }

  /** A push handled from arrival to pending, with nothing in between. */
  lemma AcceptPush(s0: State, run: seq<Action>) returns (more: seq<Action>)
    requires Guarded(s0, run)
    requires var s := Exec(s0, run); s.mqtt.Waiting? && !s.modelPending
    ensures Guarded(s0, more)
    ensures var s := Exec(s0, run);
      Exec(s0, more) == s.(modelPending := true, slot := Holds(s.pushes, true), pushes := s.pushes + 1,
                           trace := s.trace + [Downloading(s.pushes)], accepted := s.accepted + {s.pushes})
  {
    hide Exec, Guarded;
    more := Go(s0, run, MqttStep(true));
    more := Go(s0, more, MqttStep(true));
    more := Go(s0, more, MqttStep(true));
    more := Go(s0, more, MqttStep(true));
    more := Go(s0, more, MqttStep(true));
    more := Go(s0, more, MqttStep(true));
  }

  /** A download that fails and lets go of whatever strings are in place. */
  lemma FailDownload(s0: State, run: seq<Action>) returns (more: seq<Action>)
    requires Guarded(s0, run)
    requires var s := Exec(s0, run); s.xfer.Pushing? && s.xfer.push.Download?
    ensures Guarded(s0, more)
    ensures var s := Exec(s0, run);
      Exec(s0, more) == s.(xfer := CheckSnapshot, modelPending := false, modelRunning := false, slot := Empty,
                           trace := s.trace + Final(s.xfer.push.using, false))
  {
    hide Exec, Guarded, Final;
    more := Go(s0, run, XferStep(Third));
    more := Go(s0, more, XferStep(First));
    more := Go(s0, more, XferStep(First));
    more := Go(s0, more, XferStep(First));
    assert Exec(s0, run).swapped + {} == Exec(s0, run).swapped;
  }

  // ---------------------------------------------------------------- when a start is safe

  /** The guards are reached only while connected. */
  predicate InService(s: State) {
    s.net.ModelGuard? || s.net.SnapshotGuard? ==> s.app.Running?
  }

  lemma InServiceBusy(s: State, b: Busy)
    ensures InService(RestartNext(s, b)) && InService(RetryNext(s, b))
  {
    match b
    case AskModel =>
    case AskSnapshot =>
    case TearDown =>
  }

  lemma InServiceGuards(s: State, step: Start, c: Choice)
    requires s.app.Running?
    ensures InService(ModelGuardNext(s, step, c)) && InService(SnapshotGuardNext(s, step))
  {
    match step
    case AskPending =>
    case AskRunning =>
    case Decide =>
    case SetRunning =>
    case Notify =>
  }

  lemma InServiceDispatch(s: State, c: Choice)
    ensures InService(DispatchNext(s, c))
  {
    hide Connected;
    match s.app
    case Idle =>
    case Running =>
      if c == First {
      }
    case Failed =>
      if c == First {
      }
  }

  lemma InServiceNet(s: State, c: Choice)
    requires InService(s)
    ensures InService(NetNext(s, c))
  {
    hide RestartNext, RetryNext, DispatchNext, ModelGuardNext, SnapshotGuardNext;
    match s.net
    case Top =>
    case Restarting(b) => InServiceBusy(s, b);
    case Dispatch => InServiceDispatch(s, c);
    case ModelGuard(step) => InServiceGuards(s, step, c);
    case SnapshotGuard(step) => InServiceGuards(s, step, c);
    case Retrying(b) => InServiceBusy(s, b);
  }

  lemma InServiceStep(s: State, a: Action)
    requires InService(s)
    ensures InService(Next(s, a))
  {
    hide NetNext, XferNext, MqttNext;
    if a.NetStep? {
      InServiceNet(s, a.choice);
    } else {
      NetUntouched(s, a);
    }
  }

  lemma {:induction false} InServiceHolds(run: seq<Action>)
    ensures InService(Exec(INIT, run))
  {
    hide Next;
    if run != [] {
      InServiceHolds(run[..|run| - 1]);
      InServiceStep(Exec(INIT, run[..|run| - 1]), run[|run| - 1]);
    }
  }

  /** Where a schedule has led when the net thread is about to raise the model flag. */
  lemma AboutToStart(run: seq<Action>)
    requires Guarded(INIT, run) && Exec(INIT, run).net == ModelGuard(SetRunning)
    ensures var s := Exec(INIT, run);
      && !s.modelRunning && !s.xfer.Pushing? && s.app.Running?
      && Next(s, NetStep(First)) == s.(net := ModelGuard(Notify), modelRunning := true)
  {
    hide Exec, Guarded;
    FlagsHold(run);
    InServiceHolds(run);
  }

  /** How far the net thread is from the start of a pending push: the steps left in its round, and detours. */
  function StartRank(s: State): nat {
    (match s.net
     case ModelGuard(step) =>
       (match step case AskPending => 4 case AskRunning => 3 case Decide => 2 case SetRunning => 1 case Notify => 14)
     case Dispatch => 5
     case Restarting(b) => (match b case TearDown => 6 case AskSnapshot => 7 case AskModel => 8)
     case Retrying(_) => 0
     case Top => 9
     case SnapshotGuard(step) =>
       (match step
        case Notify => 10 case SetRunning => 11 case Decide => 12 case AskRunning => 12 case AskPending => 13))
    + (if s.app.Running? then 0 else 20) + (if s.restartReq then 40 else 0)
  }

  /** The net thread on its way to start a pending push. */
  predicate OnTheWay(s: State) {
    s.modelPending && !s.modelRunning && !s.app.Failed? && !s.net.Retrying? && (s.net.Restarting? ==> s.restartReq)
  }

  lemma NearerGuards(s: State, step: Start)
    requires OnTheWay(s)
    ensures s.net == ModelGuard(step) && step != SetRunning ==>
      var t := ModelGuardNext(s, step, Second); OnTheWay(t) && StartRank(t) < StartRank(s)
    ensures s.net == SnapshotGuard(step) ==>
      var t := SnapshotGuardNext(s, step); OnTheWay(t) && StartRank(t) < StartRank(s)
  {
    match step
    case AskPending =>
    case AskRunning =>
    case Decide =>
    case SetRunning =>
    case Notify =>
  }

  lemma NearerRestart(s: State, b: Busy)
    requires OnTheWay(s) && s.net == Restarting(b)
    ensures var t := RestartNext(s, b); OnTheWay(t) && StartRank(t) < StartRank(s)
  {
    match b
    case AskModel =>
    case AskSnapshot =>
    case TearDown =>
  }

  lemma Nearer(s: State)
    requires OnTheWay(s) && s.net != ModelGuard(SetRunning)
    ensures var t := NetNext(s, Second); OnTheWay(t) && StartRank(t) < StartRank(s)
  {
    hide RestartNext, ModelGuardNext, SnapshotGuardNext;
    match s.net
    case Top =>
    case Restarting(b) => NearerRestart(s, b);
    case Dispatch =>
    case ModelGuard(step) => NearerGuards(s, step);
    case SnapshotGuard(step) => NearerGuards(s, step);
  }

  lemma SamePushTwice(s: State, t: State, u: State)
    requires SamePush(s, t) && SamePush(t, u)
    ensures SamePush(s, u)
  {
  }

  lemma SamePushSelf(s: State)
    ensures SamePush(s, s)
  {
  }

  /** A pending push gets its turn: the net thread can come round to start it. */
  lemma {:induction false} ReachStart(s0: State, run: seq<Action>) returns (more: seq<Action>)
    requires Guarded(s0, run) && OnTheWay(Exec(s0, run))
    ensures Guarded(s0, more)
    ensures var s := Exec(s0, run); var t := Exec(s0, more);
      t.net == ModelGuard(SetRunning) && SamePush(s, t) && t.xfer == s.xfer && OnTheWay(t)
    decreases StartRank(Exec(s0, run))
  {
    hide Exec, Guarded, NetNext, StartRank, SamePush;
    var s := Exec(s0, run);
    if s.net == ModelGuard(SetRunning) {
      more := run;
      assert SamePush(s, s) by {
        SamePushSelf(s);
      }
    } else {
      Nearer(s);
      NetFrame(s, Second);
      more := Go(s0, run, NetStep(Second));
      var t := Exec(s0, more);
      more := ReachStart(s0, more);
      SamePushTwice(s, t, Exec(s0, more));
    }
  }

  /** Without a pending push the strings are either gone, or those of a push about to become pending. */
  lemma NotPending(s: State)
    requires Strings(s) && !s.modelPending
    ensures s.slot.Empty? || (s.slot.Holds? && s.mqtt == Handling(Raise, s.slot.push, s.slot.ack))
  {
    hide Guards, InPlace;
  }

  /**
   The push that is being accepted loses its strings to a download started for nobody: it becomes pending
   without them, and its own download is entered with none.
   */
  lemma StealStrings(s0: State, run: seq<Action>) returns (more: seq<Action>)
    requires Guarded(s0, run)
    requires var s := Exec(s0, run);
      && s.xfer == Pushing(Enter) && s.net == SnapshotGuard(AskPending) && s.app.Running?
      && s.mqtt.Handling? && s.mqtt.step == Raise
    ensures Guarded(s0, more) && Exec(s0, more).xfer == Pushing(Enter) && Exec(s0, more).slot.Empty?
  {
    hide Exec, Guarded, Final;
    more := Go(s0, run, XferStep(First));
    more := FailDownload(s0, more);
    more := Go(s0, more, MqttStep(false));
    more := ReachStart(s0, more);
    more := Go(s0, more, NetStep(First));
    more := DriveToEnter(s0, more);
  }

  /** After every stale start there is a schedule in which a download is entered with no strings at all. */
  lemma StaleStartDownloadsNothing(run: seq<Action>) returns (more: seq<Action>)
    requires Guarded(INIT, run)
    requires var s := Exec(INIT, run); s.net == ModelGuard(SetRunning) && !s.modelPending
    ensures var started := Next(Exec(INIT, run), NetStep(First)); var t := Exec(started, more);
      Guarded(started, more) && t.xfer == Pushing(Enter) && t.slot.Empty?
  {
    hide Exec, Guarded, Flags, AckFor;
    AboutToStart(run);
    SoundInit(0);
    SoundRun(INIT, run, 0);
    var s := Exec(INIT, run);
    NotPending(s);
    var started := Next(s, NetStep(First));
    ExecNone(started);
    more := DriveToEnter(started, []);
    if !s.slot.Empty? {
      more := StealStrings(started, more);
    }
  }

  /**
   Whether starting the transfer is safe is decided by one flag: the start is followed by nothing but
   safe states, however the schedule goes on without another stale start, exactly when the push is still
   pending at that moment.
   */
  lemma StartSafeIffStillPending(run: seq<Action>)
    requires Guarded(INIT, run) && Exec(INIT, run).net == ModelGuard(SetRunning)
    ensures var s := Exec(INIT, run); var started := Next(s, NetStep(First));
      s.modelPending <==> forall more :: Guarded(started, more) ==> Safe(Exec(started, more))
  {
    hide Exec, Guarded, Next, AckFor, Sound;
    var s := Exec(INIT, run);
    var started := Next(s, NetStep(First));
    if s.modelPending {
      forall more | Guarded(started, more) ensures Safe(Exec(started, more)) {
        forall p: nat ensures Sound(Exec(started, more), p) {
          SoundInit(p);
          SoundRun(INIT, run, p);
          SoundStep(s, NetStep(First), p);
          SoundRun(started, more, p);
        }
        SoundSafe(Exec(started, more));
      }
    } else {
      var more := StaleStartDownloadsNothing(run);
      assert Guarded(started, more) && !Safe(Exec(started, more));
    }
  }

  // ---------------------------------------------------------------- what a stale start can do

  lemma NothingYet(s: State)
    requires Sound(s, s.pushes) && s.mqtt.Waiting? && !s.modelPending
    ensures s.slot.Empty? && Of(s.trace, s.pushes) == [] && s.pushes !in s.swapped
  {
    hide Of;
  }

  lemma NoFinal(trace: seq<Ack>)
    ensures trace + Final(Empty, false) == trace
  {
  }

  /**
   After a stale start the next push can be lost: it is accepted and told DOWNLOADING, its strings are freed
   and its pending flag is lowered by the download that was started for nobody, and it is told no outcome.
   */
  lemma StaleStartLosesPush(run: seq<Action>) returns (more: seq<Action>)
    requires Guarded(INIT, run)
    requires var s := Exec(INIT, run);
      s.net == ModelGuard(SetRunning) && !s.modelPending && s.mqtt.Waiting?
    ensures var s := Exec(INIT, run); var started := Next(s, NetStep(First)); var t := Exec(started, more);
      && Guarded(started, more)
      && t.mqtt.Waiting? && !t.modelPending && !t.modelRunning
      && s.pushes in t.accepted && Of(t.trace, s.pushes) == [Downloading(s.pushes)]
  {
    hide Exec, Guarded, Of, Final;
    AboutToStart(run);
    SoundInit(Exec(INIT, run).pushes);
    SoundRun(INIT, run, Exec(INIT, run).pushes);
    var s := Exec(INIT, run);
    var p := s.pushes;
    NothingYet(s);
    var started := Next(s, NetStep(First));
    ExecNone(started);
    assert started.slot.Empty? && Of(started.trace, p) == [];
    more := DriveToEnter(started, []);
    more := Go(started, more, XferStep(First));
    assert Exec(started, more).xfer == Pushing(Download(Empty));
    more := AcceptPush(started, more);
    var u := Exec(started, more);
    OfMore(started.trace, Downloading(p), p);
    more := FailDownload(started, more);
    NoFinal(u.trace);
  }

  /** From a connected net thread at rest, a pending push is started and its download entered. */
  lemma StartDownload(run: seq<Action>) returns (more: seq<Action>)
    requires Guarded(INIT, run)
    requires var s := Exec(INIT, run);
      && s.net.Top? && s.app.Running? && !s.restartReq && !s.snapshotPending && !s.snapshotRunning
      && s.modelPending && !s.modelRunning && s.xfer.Blocked?
    ensures Guarded(INIT, more)
    ensures var s := Exec(INIT, run);
      Exec(INIT, more) == s.(modelRunning := true, notified := false, xfer := Pushing(Download(s.slot)))
  {
    hide Exec, Guarded;
    more := Go(INIT, run, NetStep(Second));
    more := Go(INIT, more, NetStep(Second));
    more := Go(INIT, more, NetStep(Second));
    more := Go(INIT, more, NetStep(Second));
    more := Go(INIT, more, NetStep(Second));
    more := Go(INIT, more, NetStep(Second));
    more := Go(INIT, more, NetStep(Second));
    more := Go(INIT, more, NetStep(Second));
    more := Go(INIT, more, XferStep(First));
    more := Go(INIT, more, XferStep(First));
    more := Go(INIT, more, XferStep(First));
  }

  /** Such a schedule exists: the two reads of the guard straddle the end of a download. */
  lemma StaleStartReachable() returns (run: seq<Action>)
    ensures Guarded(INIT, run)
    ensures var s := Exec(INIT, run);
      s.net == ModelGuard(SetRunning) && !s.modelPending && s.mqtt.Waiting? && StaleStart(s, NetStep(First))
  {
    hide Exec, Guarded, Final;
    ExecNone(INIT);
    run := Go(INIT, [], NetStep(First));
    run := Go(INIT, run, NetStep(Second)); // connected
    run := AcceptPush(INIT, run);
    run := StartDownload(run);
    run := Go(INIT, run, NetStep(Second));
    run := Go(INIT, run, NetStep(Second));
    run := Go(INIT, run, NetStep(Second)); // reads the pending flag: up
    run := FailDownload(INIT, run);        // the download ends and lowers it
    run := Go(INIT, run, NetStep(Second)); // reads the running flag: down
    run := Go(INIT, run, NetStep(Second));
  }
}
