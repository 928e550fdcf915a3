/** What every reachable state of the modem driver keeps, whatever the clients, the modem and the timer do. */
module Sim8xxSafety {
  import opened CStrings
  import opened Options
  import opened ResultCodes
  import opened Sim8xxProtocol

  /** The program points at which a client holds `lock`. */
  predicate Inside(pc: ClientPc) {
    !pc.Idle? && !pc.WantLock?
  }

  /** Where the holder of `lock` stands. */
  function Holder(s: State): ClientPc {
    if s.lock.Some? && s.lock.value in s.pcs then s.pcs[s.lock.value] else Idle
  }

  /** Woken by a frame, and the reader not yet resumed. */
  predicate Answering(pc: ClientPc) {
    || (pc.Woken? && pc.ok) || pc.WantRx? || pc.HoldsRx? || pc.Classified?
    || (pc.Leaving? && pc.outcome.Answered?)
  }

  /** The response is ready for the woken client but not picked up. */
  predicate PickupDue(pc: ClientPc) {
    (pc.Woken? && pc.ok) || pc.WantRx? || pc.HoldsRx?
  }

  /** The reader is between completing a frame and being resumed by a client. */
  predicate FrameDone(rpc: ReaderPc) {
    rpc.RSaving? || rpc.RParked?
  }

  /** The request is out, and its wait not yet over. */
  predicate Awaiting(pc: ClientPc) {
    pc.Sent? || pc.Suspended? || pc.Woken? || pc.WantRx? || pc.HoldsRx? || pc.Classified? || pc.GivingBack?
  }

  predicate ReaderInLoop(rpc: ReaderPc) {
    rpc.RChecking? || rpc.RWaiting? || rpc.RDraining? || rpc.RAccepting?
  }

  // Token owners: each holds one or none.

  function WriterToken(s: State): nat {
    var pc := Holder(s);
    if pc.Sending? || pc.Sent? || pc.Suspended? || (pc.Woken? && !pc.ok) || pc.GivingBack? then 1 else 0
  }

  function ReaderToken(s: State): nat {
    if s.rpc.RSaving? then 1 else 0
  }

  function TimerToken(s: State): nat {
    if s.armed then 1 else 0
  }

  function Tokens(s: State): nat {
    s.sync + WriterToken(s) + ReaderToken(s) + TimerToken(s)
  }

  // The invariants.

  /** Exactly the holder of `lock` is inside the driver. */
  predicate Mutex(s: State) {
    && (s.lock.Some? ==> s.lock.value in s.pcs && Inside(s.pcs[s.lock.value]))
    && forall c :: c in s.pcs && Inside(s.pcs[c]) ==> s.lock == Some(c)
  }

  /** Thread references and `rxlock` say where the threads stand. */
  predicate References(s: State) {
    var pc := Holder(s);
    && s.writer == (if pc.Suspended? then s.lock else None)
    && (s.reader <==> s.rpc.RParked?)
    && (s.rxlock.ByReader? <==> s.rpc.RClearing? || ReaderInLoop(s.rpc) || s.rpc.RSaving?)
    && (s.rxlock.ByClient? <==> pc.HoldsRx? || pc.Classified?)
    && (s.rxlock.ByClient? ==> s.lock == Some(s.rxlock.client))
    && (Answering(pc) ==> FrameDone(s.rpc))
    && (pc.Resuming? || pc.HoldsRx? || pc.Classified? || (pc.Leaving? && pc.outcome.Answered?) ==> s.rpc.RParked?)
    && (s.h.orphans == 0 && FrameDone(s.rpc) ==> Answering(pc) || pc.Resuming?)
  }

  /** Tokens are minted by toggles and unexpected frames, and destroyed by restarts of an armed guard. */
  predicate TokenBalance(s: State) {
    && Tokens(s) + s.h.rearms == 1 + s.h.toggles + s.h.orphans
    && Tokens(s) >= 1
  }

  /** Every frame arms the guard once, and wakes one writer or none. */
  predicate FrameBalance(s: State) {
    && |s.h.frames| == s.h.expiries + s.h.rearms + TimerToken(s) + ReaderToken(s)
    && |s.h.frames| == |s.h.handed| + s.h.orphans
  }

  /** Every text sent has one wait, and every wait one end. */
  predicate WaitBalance(s: State) {
    && s.h.waits == |s.h.handed| + s.h.timeouts + (if Holder(s).Suspended? then 1 else 0)
    && |s.h.sent| == s.h.waits + (if Holder(s).Sent? then 1 else 0)
  }

  predicate Conservation(s: State) {
    TokenBalance(s) && FrameBalance(s) && WaitBalance(s)
  }

  function Flatten(frames: seq<Frame>): seq<char> {
    if frames == [] then [] else Flatten(frames[..|frames| - 1]) + frames[|frames| - 1].bytes
  }

  /** Every earlier look at the bytes saw no final result. */
  predicate Incomplete(bytes: seq<char>, rejected: seq<nat>) {
    forall i :: 0 <= i < |rejected| ==> rejected[i] <= |bytes| && Classify(CStr(bytes[..rejected[i]])) == Invalid
  }

  /** A frame is a final result that none of the earlier looks at it saw. */
  predicate Complete(f: Frame) {
    Recognised(Classify(CStr(f.bytes))) && Incomplete(f.bytes, f.rejected)
  }

  predicate BufferShape(s: State) {
    && |s.rxbuf| == RXBUF_SIZE && s.rxlength < RXBUF_SIZE
    && forall i :: s.rxlength <= i < RXBUF_SIZE ==> s.rxbuf[i] == NUL
  }

  /** The byte stream is cut into frames; the buffer holds the unfinished one, or the last finished one. */
  predicate Stream(s: State) {
    && BufferShape(s)
    && s.h.received == Flatten(s.h.frames) + (if ReaderInLoop(s.rpc) then Received(s) else [])
    && (FrameDone(s.rpc) ==> |s.h.frames| > 0 && s.h.frames[|s.h.frames| - 1].bytes == Received(s))
  }

  /** A frame ends at the first check that sees a final result. */
  predicate Verdicts(s: State) {
    && (forall i :: 0 <= i < |s.h.frames| ==> Complete(s.h.frames[i]))
    && (ReaderInLoop(s.rpc) ==> Incomplete(Received(s), s.h.rejected))
    && (s.rpc.RAccepting? ==> Recognised(Classify(CStr(Received(s)))))
  }

  /** Responses are picked up in the order in which frames woke writers, each once and unchanged. */
  predicate HandOff(s: State) {
    && s.h.handed
       == s.h.taken
          + (if PickupDue(Holder(s)) then [Delivery(s.lock.value, LastFrame(s.h), CStr(s.rxbuf))] else [])
  }

  /** A hand-off passes on the string of a frame, and later ones pass on later frames. */
  predicate Numbered(handed: seq<Delivery>, frames: seq<Frame>) {
    && (forall i :: 0 <= i < |handed| ==>
          handed[i].frame < |frames| && handed[i].response == CStr(frames[handed[i].frame].bytes))
    && (forall i, j :: 0 <= i < j < |handed| ==> handed[i].frame < handed[j].frame)
  }

  /** Who picked up which response. */
  datatype Pickup = Pickup(client: ClientId, response: string)

  function Pickups(taken: seq<Delivery>): seq<Pickup> {
    seq(|taken|, i requires 0 <= i < |taken| => Pickup(taken[i].client, taken[i].response))
  }

  /** The answers among the finished calls. */
  function Answers(returned: seq<Return>): seq<Pickup> {
    if returned == [] then []
    else
      var last := returned[|returned| - 1];
      Answers(returned[..|returned| - 1])
      + (if last.outcome.Answered? then [Pickup(last.client, last.outcome.response)] else [])
  }

  /** The answer that the holder of `lock` is about to return. */
  function AnswerOf(pc: ClientPc): Option<string> {
    if pc.Classified? then Some(pc.response)
    else if (pc.Leaving? || pc.Resuming? || pc.Unlocking?) && pc.outcome.Answered? then Some(pc.outcome.response)
    else None
  }

  function Returning(s: State): seq<Pickup> {
    if s.lock.Some? && AnswerOf(Holder(s)).Some? then [Pickup(s.lock.value, AnswerOf(Holder(s)).value)] else []
  }

  /** What the calls return is what was picked up, in order. */
  predicate Ledger(s: State) {
    Pickups(s.h.taken) == Answers(s.h.returned) + Returning(s)
  }

  predicate Faithful(op: Op, o: Outcome) {
    && (o.Toggled? <==> op.TogglePower?)
    && (o.Answered? ==> o.status == Classify(o.response) && Recognised(o.status))
  }

  /** Every outcome on its way to a caller is one the caller may see. */
  predicate Outcomes(s: State) {
    && (forall i :: 0 <= i < |s.h.returned| ==> Faithful(s.h.returned[i].op, s.h.returned[i].outcome))
    && var pc := Holder(s);
       && (Inside(pc) && !pc.Toggling? && !pc.Unlocking? ==> !pc.op.TogglePower?)
       && (pc.Classified? ==> Faithful(pc.op, Answered(pc.response, pc.status)))
       && (pc.Leaving? || pc.Resuming? || pc.Unlocking? ==> Faithful(pc.op, pc.outcome))
  }

  /** The request whose response is awaited is the last text sent. */
  predicate LastSent(s: State) {
    Awaiting(Holder(s)) ==> |s.h.sent| > 0 && s.h.sent[|s.h.sent| - 1] == Text(Holder(s).op)
  }

  ghost predicate Inv(s: State) {
    && Mutex(s) && References(s) && Conservation(s) && Stream(s) && Verdicts(s)
    && HandOff(s) && Numbered(s.h.handed, s.h.frames) && Ledger(s) && Outcomes(s) && LastSent(s)
  }

  lemma InitInv(s: State)
    requires Init(s)
    ensures Inv(s)
  {
  }

  // One lemma for each group of invariants and each kind of thread.

  /** A client's step moves the holder of `lock`, unless it is a call that starts to wait for `lock`. */
  lemma HolderMoves(s: State, c: ClientId, a: ClientAction)
    requires Mutex(s) && ClientEnabled(s, c, a)
    ensures var s' := ClientStep(s, c, a);
            && (a.Call? ==> s'.lock == s.lock && Holder(s') == Holder(s))
            && (!a.Call? ==> s.lock == (if a.TakeLock? then None else Some(c)))
            && (!a.Call? && !a.TakeLock? ==> Holder(s) == s.pcs[c])
            && (!a.Call? && !a.DropLock? ==> s'.lock == Some(c) && Holder(s') == s'.pcs[c])
            && (a.DropLock? ==> s'.lock == None)
  {
  }

  lemma ClientMutex(s: State, c: ClientId, a: ClientAction)
    requires Mutex(s) && ClientEnabled(s, c, a)
    ensures Mutex(ClientStep(s, c, a))
  {
  }

  lemma ClientReferences(s: State, c: ClientId, a: ClientAction)
    requires Mutex(s) && References(s) && ClientEnabled(s, c, a)
    ensures References(ClientStep(s, c, a))
  {
    hide Mutex, CStr, Classify;
    HolderMoves(s, c, a);
  }

  lemma ClientTokens(s: State, c: ClientId, a: ClientAction)
    requires Mutex(s) && References(s) && TokenBalance(s) && ClientEnabled(s, c, a)
    ensures TokenBalance(ClientStep(s, c, a))
  {
    hide Mutex;
    HolderMoves(s, c, a);
  }

  lemma ClientWaits(s: State, c: ClientId, a: ClientAction)
    requires Mutex(s) && WaitBalance(s) && ClientEnabled(s, c, a)
    ensures WaitBalance(ClientStep(s, c, a))
  {
    hide Mutex;
    HolderMoves(s, c, a);
  }

  lemma ClientConservation(s: State, c: ClientId, a: ClientAction)
    requires Mutex(s) && References(s) && Conservation(s) && ClientEnabled(s, c, a)
    ensures Conservation(ClientStep(s, c, a))
  {
    hide Mutex, TokenBalance, WaitBalance;
    ClientTokens(s, c, a);
    ClientWaits(s, c, a);
  }

  lemma ClientStream(s: State, c: ClientId, a: ClientAction)
    requires Mutex(s) && References(s) && Stream(s) && Verdicts(s) && ClientEnabled(s, c, a)
    ensures Stream(ClientStep(s, c, a)) && Verdicts(ClientStep(s, c, a))
  {
    hide Mutex, Flatten, Complete, Incomplete, Classify, CStr;
    HolderMoves(s, c, a);
  }

  lemma ClientHandOff(s: State, c: ClientId, a: ClientAction)
    requires Mutex(s) && References(s) && HandOff(s) && ClientEnabled(s, c, a)
    ensures HandOff(ClientStep(s, c, a))
  {
    HolderMoves(s, c, a);
  }

  /** What a client picks up is a final result, because the reader accepted it. */
  lemma CopyOutcome(s: State, c: ClientId)
    requires Mutex(s) && References(s) && Stream(s) && Verdicts(s) && Outcomes(s) && ClientEnabled(s, c, CopyResponse)
    ensures Outcomes(ClientStep(s, c, CopyResponse))
  {
    hide Mutex, CStr, Classify, Flatten;
    HolderMoves(s, c, CopyResponse);
    CStrPadded(s.rxbuf, s.rxlength);
  }

  lemma ClientOutcomes(s: State, c: ClientId, a: ClientAction)
    requires Mutex(s) && References(s) && Stream(s) && Verdicts(s) && Outcomes(s) && ClientEnabled(s, c, a)
    ensures Outcomes(ClientStep(s, c, a))
  {
    hide Mutex, References, Stream, Verdicts, CStr, Classify;
    if a.CopyResponse? {
      CopyOutcome(s, c);
    } else {
      HolderMoves(s, c, a);
    }
  }

  lemma ClientLastSent(s: State, c: ClientId, a: ClientAction)
    requires Mutex(s) && LastSent(s) && ClientEnabled(s, c, a)
    ensures LastSent(ClientStep(s, c, a))
  {
    HolderMoves(s, c, a);
  }

  lemma PickupAdds(s: State, c: ClientId)
    requires Mutex(s) && Ledger(s) && ClientEnabled(s, c, CopyResponse)
    ensures Ledger(ClientStep(s, c, CopyResponse))
  {
    hide Answers, Classify, CStr;
    HolderMoves(s, c, CopyResponse);
    var s' := ClientStep(s, c, CopyResponse);
    assert Pickups(s'.h.taken) == Pickups(s.h.taken) + Returning(s');
  }

  lemma ReturnAdds(s: State, c: ClientId)
    requires Mutex(s) && Ledger(s) && ClientEnabled(s, c, DropLock)
    ensures Ledger(ClientStep(s, c, DropLock))
  {
    hide Pickups;
    HolderMoves(s, c, DropLock);
    var s' := ClientStep(s, c, DropLock);
    assert s'.h.returned[..|s'.h.returned| - 1] == s.h.returned;
  }

  lemma ClientLedger(s: State, c: ClientId, a: ClientAction)
    requires Mutex(s) && Ledger(s) && ClientEnabled(s, c, a)
    ensures Ledger(ClientStep(s, c, a))
  {
    hide Answers, Pickups, Mutex, CStr, Classify;
    match a {
      case CopyResponse => PickupAdds(s, c);
      case DropLock => ReturnAdds(s, c);
      case _ => HolderMoves(s, c, a);
    }
  }

  /** A step of the reader moves the holder of `lock` only by waking it. */
  lemma ReaderKeepsHolder(s: State, a: ReaderAction)
    requires Mutex(s) && References(s) && ReaderEnabled(s, a)
    ensures var s' := ReaderStep(s, a);
            && s'.lock == s.lock
            && Holder(s') == if a.Accept? && Holder(s).Suspended? then Woken(Holder(s).op, true) else Holder(s)
  {
  }

  lemma ReaderMutex(s: State, a: ReaderAction)
    requires Mutex(s) && References(s) && ReaderEnabled(s, a)
    ensures Mutex(ReaderStep(s, a))
  {
  }

  lemma ReaderReferences(s: State, a: ReaderAction)
    requires Mutex(s) && References(s) && ReaderEnabled(s, a)
    ensures References(ReaderStep(s, a))
  {
    ReaderKeepsHolder(s, a);
  }

  lemma ReaderTokens(s: State, a: ReaderAction)
    requires Mutex(s) && References(s) && TokenBalance(s) && ReaderEnabled(s, a)
    ensures TokenBalance(ReaderStep(s, a))
  {
    hide Mutex;
    ReaderKeepsHolder(s, a);
  }

  lemma ReaderBalances(s: State, a: ReaderAction)
    requires Mutex(s) && References(s) && FrameBalance(s) && WaitBalance(s) && ReaderEnabled(s, a)
    ensures FrameBalance(ReaderStep(s, a)) && WaitBalance(ReaderStep(s, a))
  {
    hide Mutex;
    ReaderKeepsHolder(s, a);
  }

  lemma ReaderConservation(s: State, a: ReaderAction)
    requires Mutex(s) && References(s) && Conservation(s) && ReaderEnabled(s, a)
    ensures Conservation(ReaderStep(s, a))
  {
    hide Mutex, References, TokenBalance, FrameBalance, WaitBalance;
    ReaderTokens(s, a);
    ReaderBalances(s, a);
  }

  lemma ByteStream(s: State, b: char)
    requires Stream(s) && ReaderEnabled(s, Byte(b))
    ensures Stream(ReaderStep(s, Byte(b)))
  {
    assert Received(ReaderStep(s, Byte(b))) == Received(s) + [b];
  }

  lemma FlattenGrows(frames: seq<Frame>, f: Frame)
    ensures Flatten(frames + [f]) == Flatten(frames) + f.bytes
  {
    assert (frames + [f])[..|frames + [f]| - 1] == frames;
  }

  lemma AcceptStream(s: State)
    requires Stream(s) && ReaderEnabled(s, Accept)
    ensures Stream(ReaderStep(s, Accept))
  {
    hide CStr, Classify, Flatten, Wake;
    FlattenGrows(s.h.frames, Frame(Received(s), s.h.rejected));
  }

  lemma ReaderStream(s: State, a: ReaderAction)
    requires Stream(s) && ReaderEnabled(s, a)
    ensures Stream(ReaderStep(s, a))
  {
    hide Flatten, CStr, Classify;
    match a {
      case Byte(b) => ByteStream(s, b);
      case Accept => AcceptStream(s);
      case Clear => assert Received(ReaderStep(s, a)) == [];
      case _ =>
    }
  }

  lemma IncompleteGrows(bytes: seq<char>, b: char, rejected: seq<nat>)
    requires Incomplete(bytes, rejected)
    ensures Incomplete(bytes + [b], rejected)
  {
    assert forall k :: 0 <= k <= |bytes| ==> (bytes + [b])[..k] == bytes[..k];
  }

  lemma CheckVerdicts(s: State)
    requires Stream(s) && Verdicts(s) && ReaderEnabled(s, Check)
    ensures Verdicts(ReaderStep(s, Check))
  {
    CStrPadded(s.rxbuf, s.rxlength);
    assert Received(s)[..s.rxlength] == Received(s);
    ClassifyIsLine(CStr(Received(s)));
  }

  lemma ByteVerdicts(s: State, b: char)
    requires Stream(s) && Verdicts(s) && ReaderEnabled(s, Byte(b))
    ensures Verdicts(ReaderStep(s, Byte(b)))
  {
    hide Complete, Incomplete, Classify, CStr, Flatten;
    assert Received(ReaderStep(s, Byte(b))) == Received(s) + [b];
    IncompleteGrows(Received(s), b, s.h.rejected);
  }

  lemma ReaderVerdicts(s: State, a: ReaderAction)
    requires Stream(s) && Verdicts(s) && ReaderEnabled(s, a)
    ensures Verdicts(ReaderStep(s, a))
  {
    hide Classify, CStr, Flatten, Stream;
    match a {
      case Byte(b) => ByteVerdicts(s, b);
      case Check => CheckVerdicts(s);
      case _ =>
    }
  }

  lemma ReaderHandOff(s: State, a: ReaderAction)
    requires Mutex(s) && References(s) && HandOff(s) && ReaderEnabled(s, a)
    ensures HandOff(ReaderStep(s, a))
  {
    ReaderKeepsHolder(s, a);
  }

  lemma ReaderNumbered(s: State, a: ReaderAction)
    requires Stream(s) && Numbered(s.h.handed, s.h.frames) && ReaderEnabled(s, a)
    ensures Numbered(ReaderStep(s, a).h.handed, ReaderStep(s, a).h.frames)
  {
    hide CStr, Classify, Flatten;
    if a.Accept? {
      assert BufferShape(s);
      CStrPadded(s.rxbuf, s.rxlength);
    }
  }

  lemma ReaderLedger(s: State, a: ReaderAction)
    requires Mutex(s) && References(s) && Ledger(s) && ReaderEnabled(s, a)
    ensures Ledger(ReaderStep(s, a))
  {
    hide Mutex, References, Answers, Pickups, CStr, Classify;
    ReaderKeepsHolder(s, a);
  }

  lemma ReaderOutcomes(s: State, a: ReaderAction)
    requires Mutex(s) && References(s) && Outcomes(s) && LastSent(s) && ReaderEnabled(s, a)
    ensures Outcomes(ReaderStep(s, a)) && LastSent(ReaderStep(s, a))
  {
    ReaderKeepsHolder(s, a);
  }

  lemma ClientInv(s: State, c: ClientId, a: ClientAction)
    requires Inv(s) && ClientEnabled(s, c, a)
    ensures Inv(ClientStep(s, c, a))
  {
    hide Mutex, References, Conservation, Stream, Verdicts, HandOff, Numbered, Ledger, Outcomes, LastSent;
    ClientMutex(s, c, a);
    ClientReferences(s, c, a);
    ClientConservation(s, c, a);
    ClientStream(s, c, a);
    ClientHandOff(s, c, a);
    ClientOutcomes(s, c, a);
    ClientLastSent(s, c, a);
    ClientLedger(s, c, a);
  }

  lemma ReaderInv(s: State, a: ReaderAction)
    requires Inv(s) && ReaderEnabled(s, a)
    ensures Inv(ReaderStep(s, a))
  {
    hide Mutex, References, Conservation, Stream, Verdicts, HandOff, Numbered, Ledger, Outcomes, LastSent;
    ReaderMutex(s, a);
    ReaderReferences(s, a);
    ReaderConservation(s, a);
    ReaderStream(s, a);
    ReaderVerdicts(s, a);
    ReaderHandOff(s, a);
    ReaderNumbered(s, a);
    ReaderLedger(s, a);
    ReaderOutcomes(s, a);
  }

  lemma TimerConservation(s: State)
    requires Conservation(s) && s.armed
    ensures Conservation(Step(s, TimerFire))
  {
  }

  lemma TimerInv(s: State)
    requires Inv(s) && s.armed
    ensures Inv(Step(s, TimerFire))
  {
    hide Conservation, Numbered, Answers, Pickups, Flatten, Complete, Incomplete, Classify, CStr, Faithful;
    TimerConservation(s);
  }

  lemma StepInv(s: State, a: Action)
    requires Inv(s) && Enabled(s, a)
    ensures Inv(Step(s, a))
  {
    hide Inv;
    match a
    case Client(c, ca) => ClientInv(s, c, ca);
    case Reader(ra) => ReaderInv(s, ra);
    case TimerFire => TimerInv(s);
    case Stutter =>
  }

  // What follows for every state of every run.

  lemma {:induction false} RunInv(states: seq<State>, actions: seq<Action>, i: nat)
    requires IsRun(states, actions) && i <= |actions|
    ensures Inv(states[i])
  {
    hide Inv;
    assert Justified(states, actions, i);
    if i == 0 {
      InitInv(states[0]);
    } else {
      RunInv(states, actions, i - 1);
      StepInv(states[i - 1], actions[i - 1]);
    }
  }

  lemma ReachableInv(s: State)
    requires Reachable(s)
    ensures Inv(s)
  {
    var states, actions :| IsRun(states, actions) && s == states[|actions|];
    RunInv(states, actions, |actions|);
  }

  lemma InitReachable(s: State)
    requires Init(s)
    ensures Reachable(s)
  {
    assert Justified([s], [], 0);
    assert IsRun([s], []);
  }

  /** The last step of the reader before step i was ra, or ra and the receiving of some bytes. */
  ghost predicate LastRead(actions: seq<Action>, i: nat, ra: ReaderAction, j: nat)
    requires i <= |actions|
  {
    && j < i && actions[j] == Reader(ra)
    && forall m :: j < m < i && actions[m].Reader? ==> ra.Input? && actions[m].ra.Byte?
  }

  /**
   * Bytes are taken from the channel only on an event that says so, and the reader waits for the next event only
   * after it has checked what it has.
   */
  lemma {:induction false} EventsAndChecks(states: seq<State>, actions: seq<Action>, i: nat)
    requires IsRun(states, actions) && i <= |actions|
    ensures states[i].rpc.RDraining? ==> exists j :: LastRead(actions, i, Input, j)
    ensures states[i].rpc.RWaiting? ==> exists j :: LastRead(actions, i, Check, j)
  {
    hide Inv, Classify, CStr;
    assert Justified(states, actions, i);
    if i > 0 {
      EventsAndChecks(states, actions, i - 1);
      var s, a := states[i - 1], actions[i - 1];
      if a == Reader(Input) || a == Reader(Check) {
        assert LastRead(actions, i, a.ra, i - 1);
      } else if s.rpc.RDraining? && states[i].rpc.RDraining? {
        var j :| LastRead(actions, i - 1, Input, j);
        assert LastRead(actions, i, Input, j);
      } else if s.rpc.RWaiting? && states[i].rpc.RWaiting? {
        var j :| LastRead(actions, i - 1, Check, j);
        assert LastRead(actions, i, Check, j);
      }
    }
  }

  lemma RunGrows(states: seq<State>, actions: seq<Action>, a: Action)
    requires IsRun(states, actions) && Enabled(states[|actions|], a)
    ensures IsRun(states + [Step(states[|actions|], a)], actions + [a])
  {
    var states', actions' := states + [Step(states[|actions|], a)], actions + [a];
    forall i | 0 <= i <= |actions'| ensures Justified(states', actions', i) {
      assert i <= |actions| ==> Justified(states, actions, i);
    }
  }

  lemma ReachableStep(s: State, a: Action)
    requires Reachable(s) && Enabled(s, a)
    ensures Reachable(Step(s, a))
  {
    var states, actions :| IsRun(states, actions) && s == states[|actions|];
    RunGrows(states, actions, a);
  }

  // Finite continuations of a run.

  ghost predicate Path(s: State, actions: seq<Action>, t: State)
    decreases |actions|
  {
    if actions == [] then s == t
    else Enabled(s, actions[0]) && Path(Step(s, actions[0]), actions[1..], t)
  }

  lemma {:induction false} PathSum(s: State, a: seq<Action>, m: State, b: seq<Action>, t: State)
    requires Path(s, a, m) && Path(m, b, t)
    ensures Path(s, a + b, t)
    decreases |a|
  {
    if a == [] {
      assert a + b == b;
    } else {
      assert (a + b)[1..] == a[1..] + b;
      PathSum(Step(s, a[0]), a[1..], m, b, t);
    }
  }

  lemma {:induction false} PathReaches(s: State, actions: seq<Action>, t: State)
    requires Reachable(s) && Path(s, actions, t)
    ensures Reachable(t)
    decreases |actions|
  {
    hide Reachable;
    if actions != [] {
      ReachableStep(s, actions[0]);
      PathReaches(Step(s, actions[0]), actions[1..], t);
    }
  }

  ghost predicate GetsTo(s: State, t: State) {
    exists actions :: Path(s, actions, t)
  }

  /** Whatever gets to s gets to t as well. */
  ghost predicate Continues(s: State, t: State) {
    forall r :: GetsTo(r, s) ==> GetsTo(r, t)
  }

  lemma GetsToItself(s: State)
    ensures GetsTo(s, s)
  {
    assert Path(s, [], s);
  }

  lemma StepContinues(s: State, a: Action)
    requires Enabled(s, a)
    ensures Continues(s, Step(s, a))
  {
    assert Path(Step(s, a), [], Step(s, a));
    assert [a][1..] == [];
    assert Path(s, [a], Step(s, a));
    forall r | GetsTo(r, s) ensures GetsTo(r, Step(s, a)) {
      var actions :| Path(r, actions, s);
      PathSum(r, actions, s, [a], Step(s, a));
    }
  }

  /**
   * Tokens are neither lost nor invented: a power toggle or a frame that finds no waiting writer mints one,
   * restarting an armed guard timer destroys one, and one is always left.
   */
  lemma TokenConservation(s: State)
    requires Reachable(s)
    ensures s.sync + WriterToken(s) + ReaderToken(s) + TimerToken(s)
            == 1 + s.h.toggles + s.h.orphans - s.h.rearms
    ensures s.sync + WriterToken(s) + ReaderToken(s) + TimerToken(s) >= 1
    ensures s.h.toggles + s.h.orphans == s.h.rearms <==> s.sync + WriterToken(s) + ReaderToken(s) + TimerToken(s) == 1
  {
    assert Conservation(s) by { ReachableInv(s); }
  }

  /** An idle driver with a single client. */
  function Start(): State {
    State(map[0 := Idle], None, Free, 1, None, false, false, RWantRx, Zeros(RXBUF_SIZE), 0, NO_HISTORY)
  }

  /** The semaphore is not binary: one power toggle of an idle modem leaves two tokens in it. */
  lemma ToggleMintsToken()
    ensures exists s :: Reachable(s) && s.sync == 2
  {
    var s0 := Start();
    InitReachable(s0);
    var a1, a2, a3 := Client(0, Call(TogglePower)), Client(0, TakeLock), Client(0, PowerDone);
    ReachableStep(s0, a1);
    ReachableStep(Step(s0, a1), a2);
    ReachableStep(Step(Step(s0, a1), a2), a3);
    assert Step(Step(Step(s0, a1), a2), a3).sync == 2;
  }

  /** No wake-up is lost: whatever a client inside the driver is blocked on is about to be released. */
  lemma NoLostWakeup(s: State, c: ClientId)
    requires Reachable(s) && c in s.pcs
    ensures s.pcs[c].AtSync? && s.sync == 0 ==> s.armed || s.rpc.RSaving?
    ensures s.pcs[c].WantRx? && !s.rxlock.Free? ==> s.rxlock.ByReader? && s.rpc.RSaving?
  {
    assert Mutex(s) && References(s) && Conservation(s) by { ReachableInv(s); }
  }

  /** A thread never suspends on a thread reference that is already taken. */
  lemma ReferenceFreeBeforeSuspend(s: State, c: ClientId)
    requires Reachable(s)
    ensures ClientEnabled(s, c, Suspend) ==> s.writer.None?
    ensures ReaderEnabled(s, Park) ==> !s.reader
  {
    assert Mutex(s) && References(s) by { ReachableInv(s); }
  }

  /** What the unlocked test of `reader` saw stays true until the tester itself acts on it. */
  lemma ReaderTestStable(s: State, c: ClientId, a: Action)
    requires Reachable(s) && s.lock == Some(c) && s.reader && Enabled(s, a)
    ensures !Step(s, a).reader ==> a == Client(c, ResumeReader)
    ensures a == Client(c, ResumeReader) ==> Step(s, a).rpc.RWoken?
  {
    assert Mutex(s) && References(s) by { ReachableInv(s); }
  }

  /** A completed frame goes to the suspended writer, or mints a token and reaches nobody. */
  lemma FrameGoesToWriter(s: State)
    requires Reachable(s) && ReaderEnabled(s, Accept)
    ensures var s' := ReaderStep(s, Accept);
            if Holder(s).Suspended?
            then && s'.h.handed == s.h.handed + [Delivery(s.lock.value, |s.h.frames|, CStr(s.rxbuf))]
                 && Holder(s') == Woken(Holder(s).op, true)
                 && Tokens(s') == Tokens(s)
            else s'.pcs == s.pcs && s'.h.handed == s.h.handed && Tokens(s') == Tokens(s) + 1
  {
    assert Mutex(s) && References(s) by { ReachableInv(s); }
  }

  /**
   * Wake-ups pair off with hand-offs: in order, each once, and never with a wait that timed out.  Each
   * passes on a completed frame of its own, and these come in the order of the stream.
   */
  lemma ExactlyOnceHandOff(s: State)
    requires Reachable(s)
    ensures s.h.taken <= s.h.handed && |s.h.handed| <= |s.h.taken| + 1
    ensures |s.h.handed| > |s.h.taken| <==> PickupDue(Holder(s))
    ensures PickupDue(Holder(s)) ==> s.h.handed[|s.h.taken|] == Delivery(s.lock.value, LastFrame(s.h), CStr(s.rxbuf))
    ensures |s.h.handed| + s.h.timeouts == s.h.waits - (if Holder(s).Suspended? then 1 else 0)
    ensures s.h.waits == |s.h.sent| - (if Holder(s).Sent? then 1 else 0)
    ensures forall i :: 0 <= i < |s.h.handed| ==>
              && s.h.handed[i].frame < |s.h.frames|
              && s.h.handed[i].response == CStr(s.h.frames[s.h.handed[i].frame].bytes)
    ensures forall i, j :: 0 <= i < j < |s.h.handed| ==> s.h.handed[i].frame < s.h.handed[j].frame
  {
    assert HandOff(s) && Conservation(s) && Numbered(s.h.handed, s.h.frames) by { ReachableInv(s); }
  }

  /** Until a client resumes the reader, the buffer holds the last frame, a final result. */
  lemma BufferHoldsFrame(s: State)
    requires Reachable(s) && FrameDone(s.rpc)
    ensures |s.h.frames| > 0
    ensures CStr(s.rxbuf) == CStr(s.h.frames[|s.h.frames| - 1].bytes)
    ensures Recognised(Classify(CStr(s.rxbuf)))
  {
    assert Stream(s) && Verdicts(s) by { ReachableInv(s); }
    CStrPadded(s.rxbuf, s.rxlength);
    assert Complete(s.h.frames[|s.h.frames| - 1]);
  }

  /**
   * A woken client reads the buffer only while the reader is parked, and gets the accepted frame; its own
   * request was the last text sent.
   */
  lemma ResponseIsFrame(s: State, c: ClientId)
    requires Reachable(s) && ClientEnabled(s, c, CopyResponse)
    ensures s.rpc.RParked? && |s.h.frames| > 0 && |s.h.handed| > 0
    ensures var pc := ClientStep(s, c, CopyResponse).pcs[c];
            && pc.response == CStr(s.h.frames[|s.h.frames| - 1].bytes)
            && s.h.handed[|s.h.handed| - 1] == Delivery(c, |s.h.frames| - 1, pc.response)
            && Recognised(pc.status)
    ensures |s.h.sent| > 0 && s.h.sent[|s.h.sent| - 1] == Text(s.pcs[c].op)
  {
    assert Mutex(s) && References(s) && HandOff(s) && LastSent(s) by { ReachableInv(s); }
    BufferHoldsFrame(s);
  }

  /** The status sim8xxExecute leaves in the command. */
  function ExecuteStatus(o: Outcome): Status {
    if o.Answered? then o.status else Timeout
  }

  /** The result of sim8xxIsConnected. */
  function Connected(o: Outcome): bool {
    o.Answered? && o.status == Ok
  }

  /** A finished call ends with a code of its response, or with a timeout, and never with an invalid status. */
  lemma CallsEndWell(s: State, i: nat)
    requires Reachable(s) && i < |s.h.returned|
    ensures var r := s.h.returned[i];
            && ExecuteStatus(r.outcome) != Invalid
            && (r.outcome.Answered? ==>
                  && Recognised(r.outcome.status)
                  && EndsWithLine(r.outcome.response, Name(r.outcome.status)))
            && (r.op.TogglePower? <==> r.outcome.Toggled?)
            && (Connected(r.outcome) ==> EndsWithLine(r.outcome.response, "OK"))
  {
    assert Outcomes(s) by { ReachableInv(s); }
    var o := s.h.returned[i].outcome;
    assert Faithful(s.h.returned[i].op, o);
    if o.Answered? {
      ClassifyExactly(o.response, o.status);
    }
  }

  /** The answers that calls have returned are the responses picked up, in order, up to the one in flight. */
  lemma AnswersArePickups(s: State)
    requires Reachable(s)
    ensures Answers(s.h.returned) <= Pickups(s.h.taken)
    ensures Pickups(s.h.taken) == Answers(s.h.returned)
              + (if AnswerOf(Holder(s)).Some? then [Pickup(s.lock.value, AnswerOf(Holder(s)).value)] else [])
  {
    assert Ledger(s) by { ReachableInv(s); }
  }

  /** The bytes received are the completed frames, each cut at the first check that sees its result, and the rest. */
  lemma FramesPartitionStream(s: State)
    requires Reachable(s)
    ensures s.h.received == Flatten(s.h.frames) + (if ReaderInLoop(s.rpc) then Received(s) else [])
    ensures forall i :: 0 <= i < |s.h.frames| ==> Complete(s.h.frames[i])
  {
    assert Stream(s) && Verdicts(s) by { ReachableInv(s); }
  }

  /**
   * As long as no power toggle and no unexpected frame has happened there is a single token.  Then no guard
   * is ever overwritten, and a request goes out only with the reader not parked nor about to park, and the
   * guard of every answered command expired.
   */
  lemma CleanRun(s: State)
    requires Reachable(s) && s.h.toggles == 0 && s.h.orphans == 0
    ensures s.sync + WriterToken(s) + ReaderToken(s) + TimerToken(s) == 1 && s.h.rearms == 0
    ensures Holder(s).Sending? ==> s.sync == 0 && !s.armed && !FrameDone(s.rpc) && |s.h.handed| == s.h.expiries
  {
    assert Mutex(s) && References(s) && Conservation(s) by { ReachableInv(s); }
  }
}
