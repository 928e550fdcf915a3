/**
 * The driver object of the modem.  Every critical section of the code updates it in place, as one step; the
 * three calls are put together from these, with the other parties' steps in between.
 */
module Sim8xxDevice {
  import opened CStrings
  import opened Options
  import opened ResultCodes
  import opened Sim8xxProtocol
  import opened Sim8xxSafety
  import opened Sim8xxLiveness
  import opened Sim8xxCalls

  class Sim8xxDriver {
    var pcs: map<ClientId, ClientPc>
    var rpc: ReaderPc
    var lock: Option<ClientId>
    var rxlock: RxOwner
    var sync: nat
    var writer: Option<ClientId>
    var reader: bool
    var guardTimer: bool
    const rxbuf: array<char>
    var rxlength: nat
    ghost var history: History

    ghost function View(): State
      reads this, rxbuf
    {
      State(pcs, lock, rxlock, sync, writer, reader, guardTimer, rpc, rxbuf[..], rxlength, history)
    }

    /** The state but for its history, on which no step depends. */
    function Now(): State
      reads this, rxbuf
    {
      State(pcs, lock, rxlock, sync, writer, reader, guardTimer, rpc, rxbuf[..], rxlength, NO_HISTORY)
    }

    /** The object is in a state that some run of the step system reaches. */
    ghost predicate Valid()
      reads this, rxbuf
    {
      rxbuf.Length == RXBUF_SIZE && Reachable(View())
    }

    /** Steps of the system, and nothing else, have led here. */
    twostate predicate Moved()
      reads this, rxbuf
    {
      Continues(old(View()), View())
    }

    /** Exactly one step has been taken. */
    twostate predicate Took(a: Action)
      reads this, rxbuf
    {
      Valid() && old(Enabled(View(), a)) && View() == Step(old(View()), a) && Moved()
    }

    twostate lemma StepTaken(a: Action)
      requires old(Valid()) && old(Enabled(View(), a)) && View() == Step(old(View()), a)
      ensures Took(a)
    {
      hide Step, Reachable, Enabled;
      ReachableStep(old(View()), a);
      StepContinues(old(View()), a);
    }

    /** sim8xxInit, and sim8xxStart of the reader thread. */
    constructor (clients: set<ClientId>)
      ensures Valid() && Init(View()) && pcs.Keys == clients
    {
      pcs := map c | c in clients :: Idle;
      rpc, lock, rxlock, sync, writer, reader := RWantRx, None, Free, 1, None, false;
      rxbuf := new char[RXBUF_SIZE](i => NUL);
      rxlength, guardTimer, history := 0, false, NO_HISTORY;
      new;
      assert rxbuf[..] == Zeros(RXBUF_SIZE);
      InitReachable(View());
    }

    // The client side: sim8xxExecute, sim8xxIsConnected, sim8xxTogglePower.

    method BeginCall(c: ClientId, op: Op)
      requires Valid() && Enabled(View(), Client(c, Call(op)))
      modifies this
      ensures Took(Client(c, Call(op)))
    {
      pcs := pcs[c := WantLock(op)];
      StepTaken(Client(c, Call(op)));
    }

    method LockDriver(c: ClientId)
      requires Valid() && Enabled(View(), Client(c, TakeLock))
      modifies this
      ensures Took(Client(c, TakeLock))
    {
      var op := pcs[c].op;
      lock := Some(c);
      pcs := pcs[c := if op.TogglePower? then Toggling else AtSync(op)];
      StepTaken(Client(c, TakeLock));
    }

    method WaitSync(c: ClientId)
      requires Valid() && Enabled(View(), Client(c, TakeSync))
      modifies this
      ensures Took(Client(c, TakeSync))
    {
      sync := sync - 1;
      pcs := pcs[c := Sending(pcs[c].op)];
      StepTaken(Client(c, TakeSync));
    }

    method SendRequest(c: ClientId) returns (text: string)
      requires Valid() && Enabled(View(), Client(c, Transmit))
      modifies this
      ensures Took(Client(c, Transmit))
      ensures text == Text(old(pcs[c].op)) && history.sent == old(history.sent) + [text]
    {
      var op := pcs[c].op;
      text := match op { case Execute(request) => request + "\r" case _ => "at\r" };
      pcs := pcs[c := Sent(op)];
      history := history.(sent := history.sent + [text]);
      StepTaken(Client(c, Transmit));
    }

    method SuspendWriter(c: ClientId)
      requires Valid() && Enabled(View(), Client(c, Suspend))
      modifies this
      ensures Took(Client(c, Suspend))
    {
      writer := Some(c);
      pcs := pcs[c := Suspended(pcs[c].op)];
      history := history.(waits := history.waits + 1);
      StepTaken(Client(c, Suspend));
    }

    method TimeOutWriter(c: ClientId)
      requires Valid() && Enabled(View(), Client(c, WriterTimeout))
      modifies this
      ensures Took(Client(c, WriterTimeout))
    {
      writer := None;
      pcs := pcs[c := Woken(pcs[c].op, false)];
      history := history.(timeouts := history.timeouts + 1);
      StepTaken(Client(c, WriterTimeout));
    }

    method ResetWriter(c: ClientId)
      requires Valid() && Enabled(View(), Client(c, ClearWriter))
      modifies this
      ensures Took(Client(c, ClearWriter))
    {
      var pc := pcs[c];
      writer := None;
      pcs := pcs[c := if pc.ok then WantRx(pc.op) else GivingBack(pc.op)];
      StepTaken(Client(c, ClearWriter));
    }

    method LockBuffer(c: ClientId)
      requires Valid() && Enabled(View(), Client(c, TakeRx))
      modifies this
      ensures Took(Client(c, TakeRx))
    {
      rxlock := ByClient(c);
      pcs := pcs[c := HoldsRx(pcs[c].op)];
      StepTaken(Client(c, TakeRx));
    }

    /** The receive buffer always holds a terminated string. */
    lemma Terminated()
      requires Valid()
      ensures NUL in rxbuf[..] && rxlength < RXBUF_SIZE
    {
      assert BufferShape(View()) by { ReachableInv(View()); }
      assert rxbuf[..][rxlength] == NUL;
    }

    /** strcpy from the receive buffer into the caller's command. */
    method CopyBuffer(response: array<char>)
      requires Valid()
      requires response.Length == RXBUF_SIZE && response != rxbuf
      modifies response
      ensures CStr(response[..]) == CStr(rxbuf[..]) && NUL in response[..]
    {
      Terminated();
      CStrPrefix(rxbuf[..]);
      ghost var text := CStr(rxbuf[..]);
      var n := |CStr(rxbuf[..])|;
      assert n < RXBUF_SIZE;
      assert forall i :: 0 <= i < n ==> rxbuf[i] == text[i];
      forall i | 0 <= i <= n {
        response[i] := rxbuf[i];
      }
      assert rxbuf[..] == old(rxbuf[..]);
      assert response[..][n] == NUL && response[..][..n] == text;
      CStrIs(response[..], n);
    }

    /** The parser runs on the caller's copy of the response, or on the receive buffer itself. */
    method ParseResponse(copy: bool, response: array<char>) returns (status: Status)
      requires Valid()
      requires response.Length == RXBUF_SIZE && response != rxbuf
      modifies rxbuf, response
      ensures rxbuf[..] == old(rxbuf[..]) && status == Classify(CStr(rxbuf[..]))
      ensures copy ==> CStr(response[..]) == CStr(rxbuf[..])
    {
      Terminated();
      if copy {
        CopyBuffer(response);
        status := GetStatus(response);
      } else {
        status := GetStatus(rxbuf);
      }
    }

    method ReadResponse(c: ClientId, response: array<char>) returns (status: Status)
      requires Valid() && Enabled(View(), Client(c, CopyResponse))
      requires response.Length == RXBUF_SIZE && response != rxbuf
      modifies this, rxbuf, response
      ensures Took(Client(c, CopyResponse))
      ensures status == pcs[c].status
      ensures old(pcs[c].op).Execute? ==> CStr(response[..]) == pcs[c].response
    {
      hide CStr, Classify, Reachable, Continues;
      var op := pcs[c].op;
      status := ParseResponse(op.Execute?, response);
      pcs := pcs[c := Classified(op, CStr(rxbuf[..]), status)];
      history := history.(taken := history.taken + [Delivery(c, LastFrame(history), CStr(rxbuf[..]))]);
      StepTaken(Client(c, CopyResponse));
    }

    method UnlockBuffer(c: ClientId)
      requires Valid() && Enabled(View(), Client(c, DropRx))
      modifies this
      ensures Took(Client(c, DropRx))
    {
      var pc := pcs[c];
      rxlock := Free;
      pcs := pcs[c := Leaving(pc.op, Answered(pc.response, pc.status))];
      StepTaken(Client(c, DropRx));
    }

    method SignalSync(c: ClientId)
      requires Valid() && Enabled(View(), Client(c, GiveBack))
      modifies this
      ensures Took(Client(c, GiveBack))
    {
      sync := sync + 1;
      pcs := pcs[c := Leaving(pcs[c].op, TimedOut)];
      StepTaken(Client(c, GiveBack));
    }

    method LookForReader(c: ClientId)
      requires Valid() && Enabled(View(), Client(c, TestReader))
      modifies this
      ensures Took(Client(c, TestReader))
    {
      var pc := pcs[c];
      pcs := pcs[c := if reader then Resuming(pc.op, pc.outcome) else Unlocking(pc.op, pc.outcome)];
      StepTaken(Client(c, TestReader));
    }

    method WakeReader(c: ClientId)
      requires Valid() && Enabled(View(), Client(c, ResumeReader))
      modifies this
      ensures Took(Client(c, ResumeReader))
      ensures rpc == RWoken
    {
      ReaderWaits(c);
      var pc := pcs[c];
      if reader {
        reader := false;
        rpc := RWoken;
      }
      pcs := pcs[c := Unlocking(pc.op, pc.outcome)];
      StepTaken(Client(c, ResumeReader));
    }

    /** The reader reference seen by the unlocked test is still there. */
    lemma ReaderWaits(c: ClientId)
      requires Valid() && Enabled(View(), Client(c, ResumeReader))
      ensures reader
    {
      assert Mutex(View()) && References(View()) by { ReachableInv(View()); }
    }

    method SignalAfterToggle(c: ClientId)
      requires Valid() && Enabled(View(), Client(c, PowerDone))
      modifies this
      ensures Took(Client(c, PowerDone))
    {
      sync := sync + 1;
      pcs := pcs[c := Unlocking(TogglePower, Toggled)];
      history := history.(toggles := history.toggles + 1);
      StepTaken(Client(c, PowerDone));
    }

    method UnlockDriver(c: ClientId)
      requires Valid() && Enabled(View(), Client(c, DropLock))
      modifies this
      ensures Took(Client(c, DropLock))
    {
      var pc := pcs[c];
      lock := None;
      pcs := pcs[c := Idle];
      history := history.(returned := history.returned + [Return(c, pc.op, pc.outcome)]);
      StepTaken(Client(c, DropLock));
    }

    // The reader thread and the guard timer.

    method ReaderLock()
      requires Valid() && Enabled(View(), Reader(LockRx))
      modifies this
      ensures Took(Reader(LockRx))
    {
      rxlock := ByReader;
      rpc := RClearing;
      StepTaken(Reader(LockRx));
    }

    method ReaderClear()
      requires Valid() && Enabled(View(), Reader(Clear))
      modifies this, rxbuf
      ensures Took(Reader(Clear))
    {
      forall i | 0 <= i < rxbuf.Length {
        rxbuf[i] := NUL;
      }
      rxlength := 0;
      rpc := RChecking;
      history := history.(rejected := []);
      assert rxbuf[..] == Zeros(RXBUF_SIZE);
      StepTaken(Reader(Clear));
    }

    /** The part of process_response before its critical section: the parser runs on the receive buffer. */
    method ReaderCheck()
      requires Valid() && Enabled(View(), Reader(Check))
      modifies this, rxbuf
      ensures Took(Reader(Check))
    {
      hide CStr, Classify, Reachable, Continues;
      Terminated();
      var status := GetStatus(rxbuf);
      if status == Invalid {
        rpc := RWaiting;
        history := history.(rejected := history.rejected + [rxlength]);
      } else {
        rpc := RAccepting;
      }
      StepTaken(Reader(Check));
    }

    method ReaderEvent(inputAvailable: bool)
      requires Valid() && Enabled(View(), Reader(Input))
      modifies this
      ensures Took(Reader(if inputAvailable then Input else Spurious))
    {
      rpc := if inputAvailable then RDraining else RChecking;
      StepTaken(Reader(if inputAvailable then Input else Spurious));
    }

    method ReaderStore(b: char)
      requires Valid() && Enabled(View(), Reader(Byte(b)))
      modifies this, rxbuf
      ensures Took(Reader(Byte(b)))
    {
      rxbuf[rxlength] := b;
      rxlength := rxlength + 1;
      history := history.(received := history.received + [b]);
      StepTaken(Reader(Byte(b)));
    }

    method ReaderDrained()
      requires Valid() && Enabled(View(), Reader(Drained))
      modifies this
      ensures Took(Reader(Drained))
    {
      rpc := RChecking;
      StepTaken(Reader(Drained));
    }

    method ReaderAccept()
      requires Valid() && Enabled(View(), Reader(Accept))
      modifies this
      ensures Took(Reader(Accept))
    {
      var w := writer;
      if w.Some? {
        writer := None;
        pcs := Wake(pcs, w.value);
        history := history.(handed := history.handed + [Delivery(w.value, |history.frames|, CStr(rxbuf[..]))]);
      } else {
        history := history.(orphans := history.orphans + 1);
      }
      history := history.(frames := history.frames + [Frame(Received(View()), history.rejected)]);
      rpc := RSaving;
      StepTaken(Reader(Accept));
    }

    method ReaderPark()
      requires Valid() && Enabled(View(), Reader(Park))
      modifies this
      ensures Took(Reader(Park))
    {
      if guardTimer {
        history := history.(rearms := history.rearms + 1);
      }
      guardTimer := true;
      rxlock := Free;
      reader := true;
      rpc := RParked;
      StepTaken(Reader(Park));
    }

    method ReaderResumed()
      requires Valid() && Enabled(View(), Reader(Unpark))
      modifies this
      ensures Took(Reader(Unpark))
    {
      reader := false;
      rpc := RWantRx;
      StepTaken(Reader(Unpark));
    }

    method TimerCallback()
      requires Valid() && Enabled(View(), TimerFire)
      modifies this
      ensures Took(TimerFire)
    {
      guardTimer := false;
      sync := sync + 1;
      history := history.(expiries := history.expiries + 1);
      StepTaken(TimerFire);
    }

    // The other parties.

    method PerformClient(c: ClientId, a: ClientAction)
      requires Valid() && Enabled(View(), Client(c, a))
      modifies this, rxbuf
      ensures Took(Client(c, a))
    {
      match a {
        case Call(op) => BeginCall(c, op);
        case TakeLock => LockDriver(c);
        case TakeSync => WaitSync(c);
        case Transmit => var _ := SendRequest(c);
        case Suspend => SuspendWriter(c);
        case WriterTimeout => TimeOutWriter(c);
        case ClearWriter => ResetWriter(c);
        case TakeRx => LockBuffer(c);
        case CopyResponse =>
          var response := new char[RXBUF_SIZE](i => NUL);
          var _ := ReadResponse(c, response);
        case DropRx => UnlockBuffer(c);
        case GiveBack => SignalSync(c);
        case TestReader => LookForReader(c);
        case ResumeReader => WakeReader(c);
        case PowerDone => SignalAfterToggle(c);
        case DropLock => UnlockDriver(c);
      }
    }

    method PerformReader(a: ReaderAction)
      requires Valid() && Enabled(View(), Reader(a))
      modifies this, rxbuf
      ensures Took(Reader(a))
    {
      match a {
        case LockRx => ReaderLock();
        case Clear => ReaderClear();
        case Check => ReaderCheck();
        case Input => ReaderEvent(true);
        case Spurious => ReaderEvent(false);
        case Byte(b) => ReaderStore(b);
        case Drained => ReaderDrained();
        case Accept => ReaderAccept();
        case Park => ReaderPark();
        case Unpark => ReaderResumed();
      }
    }

    /** Any step of any party. */
    method Perform(a: Action)
      requires Valid() && Enabled(View(), a)
      modifies this, rxbuf
      ensures Took(a)
    {
      match a {
        case Client(c, ca) => PerformClient(c, ca);
        case Reader(ra) => PerformReader(ra);
        case TimerFire => TimerCallback();
        case Stutter =>
      }
    }

    /** The other parties take those of some steps that they can take. */
    method Others(c: ClientId, steps: seq<Action>)
      requires Valid() && c in pcs
      modifies this, rxbuf
      ensures Valid() && View() == Taken(old(View()), c, steps) && Kept(c, old(View()), View()) && Moved()
    {
      hide Step, Kept, Reachable;
      KeptItself(c, View());
      var i := 0;
      while i < |steps|
        invariant Valid() && i <= |steps| && View() == Taken(old(View()), c, steps[..i])
        invariant Kept(c, old(View()), View()) && c in pcs && Moved()
      {
        assert steps[..i + 1][..i] == steps[..i];
        if Other(c, steps[i]) && Enabled(Now(), steps[i]) {
          OtherStep(c, steps[i]);
        }
        i := i + 1;
      }
      assert steps[..|steps|] == steps;
    }

    method OtherStep(c: ClientId, a: Action)
      requires Valid() && c in pcs && Other(c, a) && Enabled(View(), a)
      modifies this, rxbuf
      ensures Took(a) && c in pcs
      ensures forall s :: Kept(c, s, old(View())) ==> Kept(c, s, View())
    {
      ghost var s := View();
      assert Mutex(s) && References(s) by { ReachableInv(s); }
      StepKept(s, c, a);
      Perform(a);
      forall r | Kept(c, r, s) ensures Kept(c, r, View()) {
        KeptTrans(c, r, s, View());
      }
    }

    // Blocking: the scheduler runs what the blocked thread is waiting for.

    method AwaitLock(c: ClientId)
      requires Valid() && c in pcs && pcs[c].WantLock?
      modifies this, rxbuf
      ensures Valid() && Moved() && Kept(c, old(View()), View()) && lock.None?
      ensures Unblocked(old(View()), c, View())
    {
      hide Rank, Step, Enabled, Helpful, GetsTo, Reachable, Inv;
      ghost var n := 0;
      while lock.Some?
        invariant Valid() && Moved() && Kept(c, old(View()), View()) && pcs[c].WantLock?
        invariant View() == Helped(old(View()), c, n)
        decreases if lock.Some? then 1 else 0, Rank(View())
      {
        ReachableInv(View());
        LockAwaited(View(), c);
        assert Helpful(Now()) == Helpful(View()) by { HelpfulNow(); }
        OtherStep(c, Helpful(Now()));
        n := n + 1;
      }
    }

    /** The history has no influence on what a thread waits for. */
    lemma HelpfulNow()
      requires lock.Some?
      ensures Helpful(Now()) == Helpful(View())
    {
    }

    /** chSemWait(&sync) and chMtxLock(&rxlock) up to the moment when they can go on. */
    method AwaitRelease(c: ClientId)
      requires Valid() && lock == Some(c) && c in pcs && (pcs[c].AtSync? || pcs[c].WantRx?)
      modifies this, rxbuf
      ensures Valid() && Moved() && Kept(c, old(View()), View()) && lock == Some(c)
      ensures if pcs[c].AtSync? then sync > 0 else rxlock.Free?
      ensures Unblocked(old(View()), c, View())
    {
      hide Rank, Step, Enabled, Helpful, GetsTo, Reachable, Inv;
      ghost var n := 0;
      while if pcs[c].AtSync? then sync == 0 else !rxlock.Free?
        invariant Valid() && Moved() && Kept(c, old(View()), View()) && lock == Some(c) && c in pcs
        invariant pcs[c] == old(pcs[c])
        invariant View() == Helped(old(View()), c, n)
        decreases Rank(View())
      {
        ReachableInv(View());
        ReleaseAwaited(View(), c);
        OtherStep(c, if rpc.RSaving? then Reader(Park) else TimerFire);
        n := n + 1;
      }
    }

    // The parts of the calls; the sequences of steps are what the other parties try to do in between.

    /** The entry, with the wait for `lock`. */
    method Enter(c: ClientId, op: Op, steps: seq<Action>)
      requires Valid() && c in pcs && pcs[c].Idle?
      modifies this, rxbuf
      ensures Valid() && Moved() && Quiet(c, old(View()), View()) && lock == Some(c) && c in pcs
      ensures pcs[c] == if op.TogglePower? then Toggling else AtSync(op)
      ensures Entered(old(View()), c, op, steps, View())
    {
      hide Rank, Helpful, GetsTo, Reachable, Inv, To, Unblocked, Taken;
      ghost var s := View();
      BeginCall(c, op);
      Others(c, steps);
      AwaitLock(c);
      ghost var free := View();
      LockDriver(c);
      assert Unblocked(Taken(Do(s, Client(c, Call(op))), c, steps), c, free);
    }

    /** The wait for a token, and the transmission. */
    method Transmission(c: ClientId, before: seq<Action>, between: seq<Action>)
      requires Valid() && lock == Some(c) && c in pcs && pcs[c].AtSync?
      modifies this, rxbuf
      ensures Valid() && Moved() && Quiet(c, old(View()), View()) && lock == Some(c) && c in pcs
      ensures pcs[c] == Sent(old(pcs[c].op))
      ensures history.sent == old(history.sent) + [Text(old(pcs[c].op))]
      ensures Requested(old(View()), c, before, between, View())
    {
      hide Rank, Helpful, GetsTo, Reachable, Inv, To, Unblocked, Taken;
      ghost var s := View();
      Others(c, before);
      AwaitRelease(c);
      ghost var granted := View();
      WaitSync(c);
      Others(c, between);
      var _ := SendRequest(c);
      assert Unblocked(Taken(s, c, before), c, granted);
    }

    /** The suspension, and its end by a frame or by the timeout; `waiting` is the state after its beginning. */
    method Suspension(c: ClientId, before: seq<Action>, during: seq<Action>) returns (ok: bool, ghost waiting: State)
      requires Valid() && lock == Some(c) && c in pcs && pcs[c].Sent?
      modifies this, rxbuf
      ensures Valid() && lock == Some(c) && c in pcs && pcs[c] == Woken(old(pcs[c].op), ok)
      ensures IsWaiting(c, waiting, old(pcs[c].op))
      ensures Continues(old(View()), waiting) && Continues(waiting, View()) && Quiet(c, old(View()), waiting)
      ensures if ok then HandedOver(c, waiting, View()) else Quiet(c, waiting, View())
      ensures waiting == Do(Taken(old(View()), c, before), Client(c, Suspend))
      ensures View() == Waited(waiting, c, during)
      ensures Reachable(waiting)
    {
      hide Rank, Helpful, GetsTo, Reachable, Inv, To, Unblocked, Taken;
      Others(c, before);
      SuspendWriter(c);
      waiting := View();
      ok := Wait(c, during);
    }

    /** chThdSuspendTimeoutS: a frame may come, or the timeout. */
    method Wait(c: ClientId, steps: seq<Action>) returns (ok: bool)
      requires Valid() && lock == Some(c) && c in pcs && pcs[c].Suspended?
      modifies this, rxbuf
      ensures Valid() && Moved() && lock == Some(c) && c in pcs && pcs[c] == Woken(old(pcs[c].op), ok)
      ensures if ok then HandedOver(c, old(View()), View()) else Quiet(c, old(View()), View())
      ensures View() == Waited(old(View()), c, steps)
    {
      hide Rank, Helpful, GetsTo, Reachable, Inv;
      Others(c, steps);
      if pcs[c].Suspended? {
        TimeOutWriter(c);
      }
      ok := pcs[c].ok;
    }

    /** From the entry to the end of the wait. */
    method Ask(c: ClientId, op: Op, schedule: nat -> seq<Action>) returns (ok: bool, ghost waiting: State)
      requires Valid() && c in pcs && pcs[c].Idle? && !op.TogglePower?
      modifies this, rxbuf
      ensures Valid() && lock == Some(c) && c in pcs && pcs[c] == Woken(op, ok)
      ensures IsWaiting(c, waiting, op) && Transmitted(old(View()), waiting, Text(op))
      ensures Continues(old(View()), waiting) && Continues(waiting, View()) && Quiet(c, old(View()), waiting)
      ensures if ok then HandedOver(c, waiting, View()) else Quiet(c, waiting, View())
      ensures Asked(old(View()), c, op, schedule, waiting) && View() == Waited(waiting, c, schedule(4))
      ensures Reachable(waiting)
    {
      hide Rank, Helpful, GetsTo, Reachable, Inv, To, CStr, Text, Unblocked, Taken;
      ghost var s := View();
      Enter(c, op, schedule(0));
      ghost var m := View();
      Transmission(c, schedule(1), schedule(2));
      ghost var n := View();
      ok, waiting := Suspension(c, schedule(3), schedule(4));
      TransmittedThen(s, m, n, waiting, Text(op));
      QuietTrans(c, s, m, n);
      QuietTrans(c, s, n, waiting);
    }

    /** After MSG_OK: the writer gets the buffer mutex. */
    method TakeBuffer(c: ClientId, before: seq<Action>, during: seq<Action>)
      requires Valid() && lock == Some(c) && c in pcs && pcs[c].Woken? && pcs[c].ok
      modifies this, rxbuf
      ensures Valid() && Moved() && Quiet(c, old(View()), View()) && lock == Some(c) && c in pcs
      ensures pcs[c] == HoldsRx(old(pcs[c].op)) && rxbuf[..] == old(rxbuf[..])
      ensures TookBuffer(old(View()), c, before, during, View())
    {
      hide Rank, Helpful, GetsTo, Reachable, Inv, To, Unblocked, Taken;
      ghost var s := View();
      ResetWriter(c);
      Others(c, before);
      AwaitRelease(c);
      ghost var free := View();
      LockBuffer(c);
      Others(c, during);
      assert Unblocked(Taken(Do(s, Client(c, ClearWriter)), c, before), c, free);
    }

    /** It picks up the response, and releases the mutex. */
    method UseBuffer(c: ClientId, response: array<char>, after: seq<Action>) returns (status: Status)
      requires Valid() && lock == Some(c) && c in pcs && pcs[c].HoldsRx?
      requires response.Length == RXBUF_SIZE && response != rxbuf
      modifies this, rxbuf, response
      ensures Valid() && Moved() && Quiet(c, old(View()), View()) && lock == Some(c) && c in pcs
      ensures pcs[c] == Leaving(old(pcs[c].op), Answered(CStr(old(rxbuf[..])), status))
      ensures Recognised(status) && status == Classify(CStr(old(rxbuf[..])))
      ensures old(pcs[c].op).Execute? ==> CStr(response[..]) == CStr(old(rxbuf[..]))
      ensures View() == UsedBuffer(old(View()), c, after)
    {
      hide Rank, Helpful, GetsTo, Reachable, Inv, To, CStr, Classify, Unblocked, Taken;
      ResponseIsFrame(View(), c);
      status := ReadResponse(c, response);
      Others(c, after);
      UnlockBuffer(c);
    }

    /** The two together. */
    method Receive(c: ClientId, response: array<char>, before: seq<Action>, during: seq<Action>, after: seq<Action>)
      returns (status: Status)
      requires Valid() && lock == Some(c) && c in pcs && pcs[c].Woken? && pcs[c].ok
      requires response.Length == RXBUF_SIZE && response != rxbuf
      modifies this, rxbuf, response
      ensures Valid() && Moved() && Quiet(c, old(View()), View()) && lock == Some(c) && c in pcs
      ensures pcs[c] == Leaving(old(pcs[c].op), Answered(CStr(old(rxbuf[..])), status))
      ensures Recognised(status) && status == Classify(CStr(old(rxbuf[..])))
      ensures old(pcs[c].op).Execute? ==> CStr(response[..]) == CStr(old(rxbuf[..]))
      ensures exists m :: TookBuffer(old(View()), c, before, during, m) && View() == UsedBuffer(m, c, after)
    {
      hide Rank, Helpful, GetsTo, Reachable, Inv, To, CStr, Classify, Quiet;
      ghost var s := View();
      TakeBuffer(c, before, during);
      ghost var m := View();
      status := UseBuffer(c, response, after);
      QuietTrans(c, s, m, View());
    }

    /** After a timeout: the writer returns its token. */
    method GiveUp(c: ClientId, steps: seq<Action>)
      requires Valid() && lock == Some(c) && c in pcs && pcs[c].Woken? && !pcs[c].ok
      modifies this, rxbuf
      ensures Valid() && Moved() && Quiet(c, old(View()), View()) && lock == Some(c) && c in pcs
      ensures pcs[c] == Leaving(old(pcs[c].op), TimedOut)
      ensures View() == GaveUp(old(View()), c, steps)
    {
      hide Rank, Helpful, GetsTo, Reachable, Inv, To, Unblocked, Taken;
      ResetWriter(c);
      Others(c, steps);
      SignalSync(c);
    }

    /** The unlocked test of the reader reference; a reader seen is resumed. */
    method TestAndResume(c: ClientId, before: seq<Action>, between: seq<Action>)
      requires Valid() && lock == Some(c) && c in pcs && pcs[c].Leaving?
      modifies this, rxbuf
      ensures Valid() && Moved() && Quiet(c, old(View()), View()) && lock == Some(c) && c in pcs
      ensures pcs[c] == Unlocking(old(pcs[c].op), old(pcs[c].outcome))
      ensures View() == Tested(old(View()), c, before, between)
    {
      hide Rank, Helpful, GetsTo, Reachable, Inv, To, Unblocked, Taken;
      Others(c, before);
      LookForReader(c);
      Others(c, between);
      if pcs[c].Resuming? {
        WakeReader(c);
      }
    }

    /** The end of a command: a parked reader is resumed, and the driver released. */
    method Leave(c: ClientId, before: seq<Action>, between: seq<Action>, after: seq<Action>)
      requires Valid() && lock == Some(c) && c in pcs && pcs[c].Leaving?
      modifies this, rxbuf
      ensures Valid() && Moved() && Quiet(c, old(View()), View()) && c in pcs && pcs[c].Idle?
      ensures history.returned != []
      ensures history.returned[|history.returned| - 1] == Return(c, old(pcs[c].op), old(pcs[c].outcome))
      ensures View() == Left(old(View()), c, before, between, after)
    {
      hide Rank, Helpful, GetsTo, Reachable, Inv, To, Unblocked, Taken;
      TestAndResume(c, before, between);
      Others(c, after);
      UnlockDriver(c);
    }

    // The calls; schedule(n) is what the other parties try to do at the n-th opportunity.

    /**
     * sim8xxExecute.  `waiting` is the state at the beginning of the call's suspension, `leaving` the one before
     * its test of the reader.  What the others do in the wait decides: if their steps hand a frame over, the call
     * returns it, and else it times out.
     */
    method Execute(c: ClientId, request: string, response: array<char>, schedule: nat -> seq<Action>)
      returns (status: Status, ghost waiting: State, ghost leaving: State)
      requires Valid() && c in pcs && pcs[c].Idle?
      requires response.Length == RXBUF_SIZE && response != rxbuf
      modifies this, rxbuf, response
      ensures Valid() && c in pcs && pcs[c].Idle?
      ensures CallRuns(old(View()), c, Op.Execute(request), schedule, waiting, leaving, View())
      ensures GetsTo(old(View()), waiting) && GetsTo(waiting, View())
      ensures IsWaiting(c, waiting, Op.Execute(request)) && Transmitted(old(View()), waiting, request + "\r")
      ensures Quiet(c, old(View()), waiting)
      ensures status != Invalid
      ensures status != Timeout <==> HandedOver(c, waiting, Taken(waiting, c, schedule(4)))
      ensures status != Timeout ==> CStr(response[..]) == CStr(Taken(waiting, c, schedule(4)).rxbuf)
      ensures status != Timeout ==> EndsWithLine(CStr(response[..]), Name(status))
      ensures status != Timeout ==> GotResponse(c, waiting, View(), CStr(response[..]))
      ensures status == Timeout ==> Quiet(c, waiting, View()) && response[..] == old(response[..])
      ensures forall code :: BringsAnswer(waiting, schedule(4), code) ==> status == code
      ensures ResumesReader(leaving, c, schedule(8), View())
      ensures history.returned != []
      ensures var r := history.returned[|history.returned| - 1];
              r.client == c && r.op == Op.Execute(request) && ExecuteStatus(r.outcome) == status
    {
      hide Rank, Helpful, GetsTo, Reachable, Inv, To, CStr, Classify, EndsWithLine, Received;
      hide GotResponse, Quiet, HandedOver, Transmitted, Taken, Asked, TookBuffer, UsedBuffer, GaveUp, Left;
      hide Waited, BringsAnswer, ResumesReader;
      var ok;
      GetsToItself(View());
      ok, waiting := Ask(c, Op.Execute(request), schedule);
      GetsToItself(waiting);
      ghost var m := View();
      if ok {
        status := Receive(c, response, schedule(5), schedule(6), schedule(7));
        ClassifyExactly(CStr(response[..]), status);
      } else {
        GiveUp(c, schedule(5));
        status := Timeout;
      }
      leaving := View();
      Leave(c, schedule(8), schedule(9), schedule(10));
      LeaveReopens(leaving, c, schedule);
      QuietTrans(c, m, leaving, View());
      WaitDecides(waiting, c, schedule(4), Op.Execute(request), ok);
      if ok {
        HandedOverIsResponse(c, waiting, m, View());
      } else {
        QuietTrans(c, waiting, m, View());
      }
    }

    /** sim8xxIsConnected, with the same account of its steps. */
    method IsConnected(c: ClientId, schedule: nat -> seq<Action>)
      returns (connected: bool, ghost waiting: State, ghost leaving: State)
      requires Valid() && c in pcs && pcs[c].Idle?
      modifies this, rxbuf
      ensures Valid() && c in pcs && pcs[c].Idle?
      ensures CallRuns(old(View()), c, Op.IsConnected, schedule, waiting, leaving, View())
      ensures GetsTo(old(View()), waiting) && GetsTo(waiting, View())
      ensures IsWaiting(c, waiting, Op.IsConnected) && Transmitted(old(View()), waiting, "at\r")
      ensures Quiet(c, old(View()), waiting)
      ensures connected <==> && HandedOver(c, waiting, Taken(waiting, c, schedule(4)))
                             && EndsWithLine(CStr(Taken(waiting, c, schedule(4)).rxbuf), "OK")
      ensures connected <==> exists text :: EndsWithLine(text, "OK") && GotResponse(c, waiting, View(), text)
      ensures Quiet(c, waiting, View()) || exists text :: GotResponse(c, waiting, View(), text)
      ensures forall code :: BringsAnswer(waiting, schedule(4), code) ==> (connected <==> code == Ok)
      ensures ResumesReader(leaving, c, schedule(8), View())
      ensures history.returned != []
      ensures var r := history.returned[|history.returned| - 1];
              r.client == c && r.op == Op.IsConnected && Connected(r.outcome) == connected
    {
      hide Rank, Helpful, GetsTo, Reachable, Inv, To, CStr, Classify, EndsWithLine, Received;
      hide GotResponse, Quiet, HandedOver, Transmitted, Taken, Asked, TookBuffer, UsedBuffer, GaveUp, Left;
      hide Waited, BringsAnswer, ResumesReader;
      var ok;
      GetsToItself(View());
      ok, waiting := Ask(c, Op.IsConnected, schedule);
      GetsToItself(waiting);
      ghost var m := View();
      connected := false;
      if ok {
        var unused := new char[RXBUF_SIZE](i => NUL);
        var status := Receive(c, unused, schedule(5), schedule(6), schedule(7));
        ClassifyExactly(CStr(m.rxbuf), Ok);
        connected := status == Ok;
      } else {
        GiveUp(c, schedule(5));
      }
      leaving := View();
      Leave(c, schedule(8), schedule(9), schedule(10));
      LeaveReopens(leaving, c, schedule);
      QuietTrans(c, m, leaving, View());
      WaitDecides(waiting, c, schedule(4), Op.IsConnected, ok);
      if ok {
        HandedOverIsResponse(c, waiting, m, View());
      } else {
        QuietTrans(c, waiting, m, View());
      }
      forall text | GotResponse(c, waiting, View(), text) ensures ok && text == CStr(m.rxbuf) {
        OneResponse(c, waiting, View(), text, CStr(m.rxbuf));
      }
    }

    /** The power key is pressed and released, and the driver released. */
    method PowerUp(c: ClientId, before: seq<Action>, after: seq<Action>)
      requires Valid() && lock == Some(c) && c in pcs && pcs[c].Toggling?
      modifies this, rxbuf
      ensures Valid() && Moved() && c in pcs && pcs[c].Idle? && Quiet(c, old(View()), View())
      ensures history.toggles > old(history.toggles)
      ensures View() == Powered(old(View()), c, before, after)
    {
      hide Rank, Helpful, GetsTo, Reachable, Inv, To, Unblocked, Taken;
      Others(c, before);
      SignalAfterToggle(c);
      Others(c, after);
      UnlockDriver(c);
    }

    /** sim8xxTogglePower. */
    method PressPowerKey(c: ClientId, schedule: nat -> seq<Action>)
      requires Valid() && c in pcs && pcs[c].Idle?
      modifies this, rxbuf
      ensures Valid() && Moved() && c in pcs && pcs[c].Idle? && Quiet(c, old(View()), View())
      ensures history.toggles > old(history.toggles)
      ensures exists inside ::
                && Entered(old(View()), c, TogglePower, schedule(0), inside)
                && View() == Powered(inside, c, schedule(1), schedule(2))
    {
      hide Rank, Helpful, GetsTo, Reachable, Inv, To;
      Enter(c, TogglePower, schedule(0));
      PowerUp(c, schedule(1), schedule(2));
    }
  }
}
