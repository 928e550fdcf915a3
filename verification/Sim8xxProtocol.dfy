/**
 * The modem driver as a step system: any number of client threads, the reader thread and the guard timer.
 * One step is one critical section of the code, or one stretch of code that touches no shared data.
 */
module Sim8xxProtocol {
  import opened CStrings
  import opened Options
  import opened ResultCodes

  type ClientId = nat

  const RXBUF_SIZE: nat := 512

  /** The three calls a client can make. */
  datatype Op = Execute(request: string) | IsConnected | TogglePower

  /** How a call ended. */
  datatype Outcome = Answered(response: string, status: Status) | TimedOut | Toggled

  /** Where a client thread stands; from AtSync on it holds `lock`. */
  datatype ClientPc =
    | Idle
    | WantLock(op: Op)
    | AtSync(op: Op)                                         // before chSemWait
    | Sending(op: Op)                                        // before chprintf
    | Sent(op: Op)                                           // before chThdSuspendTimeoutS
    | Suspended(op: Op)
    | Woken(op: Op, ok: bool)                                // before writer = NULL
    | WantRx(op: Op)                                         // before chMtxLock(rxlock)
    | HoldsRx(op: Op)                                        // before strcpy and sim8xxGetStatus
    | Classified(op: Op, response: string, status: Status)   // before chMtxUnlock(rxlock)
    | GivingBack(op: Op)                                     // before chSemSignal after a timeout
    | Leaving(op: Op, outcome: Outcome)                      // before the test of simp->reader
    | Resuming(op: Op, outcome: Outcome)                     // before chThdResumeS(reader)
    | Unlocking(op: Op, outcome: Outcome)                    // before chMtxUnlock(lock)
    | Toggling                                               // power key pressed, before chSemSignal

  /** Where the reader thread stands. */
  datatype ReaderPc =
    | RWantRx      // before chMtxLock(rxlock)
    | RClearing    // before memset
    | RChecking    // before process_message
    | RWaiting     // in chEvtWaitAny
    | RDraining    // in the chnGetTimeout loop
    | RAccepting   // frame complete, before the critical section of process_response
    | RSaving      // before the critical section that arms the timer and parks
    | RParked
    | RWoken       // before reader = NULL

  datatype RxOwner = Free | ByReader | ByClient(client: ClientId)

  /** A completed frame and the lengths at which it was checked before and found incomplete. */
  datatype Frame = Frame(bytes: seq<char>, rejected: seq<nat>)

  /** A frame handed to a client: the number of the frame, and the string in it. */
  datatype Delivery = Delivery(client: ClientId, frame: nat, response: string)

  datatype Return = Return(client: ClientId, op: Op, outcome: Outcome)

  /** What has happened so far; no step depends on it. */
  datatype History = History(
    toggles: nat,              // power toggles
    orphans: nat,              // frames completed while no writer was suspended
    rearms: nat,               // guard timer restarted while still armed
    expiries: nat,             // guard timer expired
    waits: nat,                // suspensions of a writer
    timeouts: nat,             // of which timed out
    received: seq<char>,       // every byte taken from the channel
    frames: seq<Frame>,        // every completed frame
    rejected: seq<nat>,        // checks of the current frame that found it incomplete
    handed: seq<Delivery>,     // frames that woke a writer, and the writer
    taken: seq<Delivery>,      // responses picked up, and the client
    sent: seq<string>,         // text transmitted
    returned: seq<Return>)     // finished calls

  datatype State = State(
    pcs: map<ClientId, ClientPc>,
    lock: Option<ClientId>,
    rxlock: RxOwner,
    sync: nat,
    writer: Option<ClientId>,
    reader: bool,              // thread reference set
    armed: bool,               // guard timer
    rpc: ReaderPc,
    rxbuf: seq<char>,
    rxlength: nat,
    h: History)

  datatype ClientAction =
    | Call(op: Op) | TakeLock | TakeSync | Transmit | Suspend | WriterTimeout | ClearWriter | TakeRx
    | CopyResponse | DropRx | GiveBack | TestReader | ResumeReader | PowerDone | DropLock

  datatype ReaderAction =
    | LockRx | Clear | Check | Input | Spurious | Byte(b: char) | Drained | Accept | Park | Unpark

  datatype Action = Client(c: ClientId, ca: ClientAction) | Reader(ra: ReaderAction) | TimerFire | Stutter

  const NO_HISTORY := History(0, 0, 0, 0, 0, 0, [], [], [], [], [], [], [])

  function Zeros(n: nat): (s: seq<char>)
    ensures |s| == n && forall i :: 0 <= i < n ==> s[i] == NUL
  {
    seq(n, i => NUL)
  }

  /** After sim8xxInit and the start of the reader thread, with all clients outside the driver. */
  ghost predicate Init(s: State) {
    && (forall c :: c in s.pcs ==> s.pcs[c] == Idle)
    && s == State(s.pcs, None, Free, 1, None, false, false, RWantRx, Zeros(RXBUF_SIZE), 0, NO_HISTORY)
  }

  predicate ClientEnabled(s: State, c: ClientId, a: ClientAction) {
    && c in s.pcs
    && var pc := s.pcs[c];
       match a
       case Call(op) => pc.Idle?
       case TakeLock => pc.WantLock? && s.lock.None?
       case TakeSync => pc.AtSync? && s.sync > 0
       case Transmit => pc.Sending?
       case Suspend => pc.Sent?
       case WriterTimeout => pc.Suspended?
       case ClearWriter => pc.Woken?
       case TakeRx => pc.WantRx? && s.rxlock.Free?
       case CopyResponse => pc.HoldsRx?
       case DropRx => pc.Classified?
       case GiveBack => pc.GivingBack?
       case TestReader => pc.Leaving?
       case ResumeReader => pc.Resuming?
       case PowerDone => pc.Toggling?
       case DropLock => pc.Unlocking?
  }

  /** Frames must leave room for the terminating NUL; the code does not check this. */
  predicate ReaderEnabled(s: State, a: ReaderAction) {
    match a
    case LockRx => s.rpc.RWantRx? && s.rxlock.Free?
    case Clear => s.rpc.RClearing?
    case Check => s.rpc.RChecking?
    case Input => s.rpc.RWaiting?
    case Spurious => s.rpc.RWaiting?
    case Byte(b) => s.rpc.RDraining? && s.rxlength + 1 < RXBUF_SIZE <= |s.rxbuf|
    case Drained => s.rpc.RDraining?
    case Accept => s.rpc.RAccepting?
    case Park => s.rpc.RSaving?
    case Unpark => s.rpc.RWoken?
  }

  predicate Enabled(s: State, a: Action) {
    match a
    case Client(c, ca) => ClientEnabled(s, c, ca)
    case Reader(ra) => ReaderEnabled(s, ra)
    case TimerFire => s.armed
    case Stutter => true
  }

  /** What a command puts on the line. */
  function Text(op: Op): string {
    if op.Execute? then op.request + "\r" else "at\r"
  }

  /** The number of the frame completed last. */
  function LastFrame(h: History): nat {
    if h.frames == [] then 0 else |h.frames| - 1
  }

  /** The thread a reference points to becomes ready, its suspend call returning MSG_OK. */
  function Wake(pcs: map<ClientId, ClientPc>, w: ClientId): map<ClientId, ClientPc> {
    if w in pcs && pcs[w].Suspended? then pcs[w := Woken(pcs[w].op, true)] else pcs
  }

  function ClientStep(s: State, c: ClientId, a: ClientAction): State
    requires ClientEnabled(s, c, a)
  {
    var pc := s.pcs[c];
    match a
    case Call(op) =>
      s.(pcs := s.pcs[c := WantLock(op)])
    case TakeLock =>
      s.(lock := Some(c), pcs := s.pcs[c := if pc.op.TogglePower? then Toggling else AtSync(pc.op)])
    case TakeSync =>
      s.(sync := s.sync - 1, pcs := s.pcs[c := Sending(pc.op)])
    case Transmit =>
      s.(pcs := s.pcs[c := Sent(pc.op)], h := s.h.(sent := s.h.sent + [Text(pc.op)]))
    case Suspend =>
      s.(writer := Some(c), pcs := s.pcs[c := Suspended(pc.op)], h := s.h.(waits := s.h.waits + 1))
    case WriterTimeout =>
      s.(writer := None, pcs := s.pcs[c := Woken(pc.op, false)], h := s.h.(timeouts := s.h.timeouts + 1))
    case ClearWriter =>
      s.(writer := None, pcs := s.pcs[c := if pc.ok then WantRx(pc.op) else GivingBack(pc.op)])
    case TakeRx =>
      s.(rxlock := ByClient(c), pcs := s.pcs[c := HoldsRx(pc.op)])
    case CopyResponse =>
      var response := CStr(s.rxbuf);
      s.(pcs := s.pcs[c := Classified(pc.op, response, Classify(response))],
         h := s.h.(taken := s.h.taken + [Delivery(c, LastFrame(s.h), response)]))
    case DropRx =>
      s.(rxlock := Free, pcs := s.pcs[c := Leaving(pc.op, Answered(pc.response, pc.status))])
    case GiveBack =>
      s.(sync := s.sync + 1, pcs := s.pcs[c := Leaving(pc.op, TimedOut)])
    case TestReader =>
      s.(pcs := s.pcs[c := if s.reader then Resuming(pc.op, pc.outcome) else Unlocking(pc.op, pc.outcome)])
    case ResumeReader =>
      s.(reader := false, rpc := if s.reader then RWoken else s.rpc,
         pcs := s.pcs[c := Unlocking(pc.op, pc.outcome)])
    case PowerDone =>
      s.(sync := s.sync + 1, pcs := s.pcs[c := Unlocking(TogglePower, Toggled)],
         h := s.h.(toggles := s.h.toggles + 1))
    case DropLock =>
      s.(lock := None, pcs := s.pcs[c := Idle],
         h := s.h.(returned := s.h.returned + [Return(c, pc.op, pc.outcome)]))
  }

  function ReaderStep(s: State, a: ReaderAction): State
    requires ReaderEnabled(s, a)
  {
    match a
    case LockRx =>
      s.(rxlock := ByReader, rpc := RClearing)
    case Clear =>
      s.(rxbuf := Zeros(RXBUF_SIZE), rxlength := 0, rpc := RChecking, h := s.h.(rejected := []))
    case Check =>
      if Classify(CStr(s.rxbuf)) == Invalid
      then s.(rpc := RWaiting, h := s.h.(rejected := s.h.rejected + [s.rxlength]))
      else s.(rpc := RAccepting)
    case Input =>
      s.(rpc := RDraining)
    case Spurious =>
      s.(rpc := RChecking)
    case Byte(b) =>
      s.(rxbuf := s.rxbuf[s.rxlength := b], rxlength := s.rxlength + 1,
         h := s.h.(received := s.h.received + [b]))
    case Drained =>
      s.(rpc := RChecking)
    case Accept =>
      var frame := Frame(Received(s), s.h.rejected);
      if s.writer.Some?
      then s.(rpc := RSaving, writer := None, pcs := Wake(s.pcs, s.writer.value),
              h := s.h.(frames := s.h.frames + [frame],
                        handed := s.h.handed + [Delivery(s.writer.value, |s.h.frames|, CStr(s.rxbuf))]))
      else s.(rpc := RSaving, h := s.h.(frames := s.h.frames + [frame], orphans := s.h.orphans + 1))
    case Park =>
      s.(rpc := RParked, armed := true, rxlock := Free, reader := true,
         h := if s.armed then s.h.(rearms := s.h.rearms + 1) else s.h)
    case Unpark =>
      s.(rpc := RWantRx, reader := false)
  }

  function Step(s: State, a: Action): State
    requires Enabled(s, a)
  {
    match a
    case Client(c, ca) => ClientStep(s, c, ca)
    case Reader(ra) => ReaderStep(s, ra)
    case TimerFire => s.(armed := false, sync := s.sync + 1, h := s.h.(expiries := s.h.expiries + 1))
    case Stutter => s
  }

  /** The bytes in the receive buffer. */
  function Received(s: State): seq<char> {
    if s.rxlength <= |s.rxbuf| then s.rxbuf[..s.rxlength] else s.rxbuf
  }

  /** State i of a run is an initial state, or follows from the state before it. */
  ghost predicate Justified(states: seq<State>, actions: seq<Action>, i: nat)
    requires i <= |actions| < |states|
  {
    if i == 0 then Init(states[0])
    else Enabled(states[i - 1], actions[i - 1]) && states[i] == Step(states[i - 1], actions[i - 1])
  }

  ghost predicate IsRun(states: seq<State>, actions: seq<Action>) {
    && |states| == |actions| + 1
    && forall i :: 0 <= i <= |actions| ==> Justified(states, actions, i)
  }

  ghost predicate Reachable(s: State) {
    exists states, actions :: IsRun(states, actions) && s == states[|actions|]
  }
}
