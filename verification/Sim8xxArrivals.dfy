/**
 * What the bytes that arrive during a wait decide: whether an answer that comes in time gets through, what is in
 * the way of it, and what the call then returns.
 */
module Sim8xxArrivals {
  import opened CStrings
  import opened Options
  import opened ResultCodes
  import opened Sim8xxProtocol
  import opened Sim8xxSafety
  import opened Sim8xxLiveness
  import opened Sim8xxAnswers
  import opened Sim8xxAnswerable

  /** The bytes received from state s to state t. */
  function Arrived(s: State, t: State): seq<char> {
    if |s.h.received| <= |t.h.received| then t.h.received[|s.h.received|..] else []
  }

  /** A step that neither completes a frame nor leaves the input loop adds to the buffer what it receives. */
  lemma ArrivalStep(s: State, a: Action)
    requires Mutex(s) && References(s) && BufferShape(s) && Enabled(s, a)
    requires ReaderInLoop(s.rpc) && a != Reader(Accept)
    ensures var t := Step(s, a);
            && ReaderInLoop(t.rpc) && s.h.received <= t.h.received
            && Received(t) == Received(s) + Arrived(s, t)
  {
    hide CStr, Classify, Mutex;
    match a {
      case Reader(Byte(b)) => assert Received(Step(s, a)) == Received(s) + [b];
      case Client(c, ca) =>
      case _ =>
    }
  }

  lemma ArrivalAt(run: nat -> State, act: nat -> Action, i: nat, c: ClientId)
    requires Behaviour(run, act) && StillWaits(run, i, i + 1, c) && ReaderInLoop(run(i).rpc)
    ensures ReaderInLoop(run(i + 1).rpc) && run(i).h.received <= run(i + 1).h.received
    ensures Received(run(i + 1)) == Received(run(i)) + Arrived(run(i), run(i + 1))
  {
    hide Received, Arrived, ReaderInLoop;
    var s := run(i);
    assert run(i).lock == Some(c) && Holder(run(i)).Suspended? && Holder(run(i + 1)).Suspended?;
    WaitStepAt(run, act, i, c);
    assert Mutex(s) && References(s) && BufferShape(s) by {
      BehaviourReaches(run, act, i);
      ReachableInv(s);
      assert Stream(s);
    }
    assert Enabled(s, act(i)) && run(i + 1) == Step(s, act(i)) by { assert JustifiedAt(run, act, i); }
    ArrivalStep(s, act(i));
  }

  /** During a wait the buffer grows by what arrives. */
  lemma {:induction false} ArrivalsAddUp(run: nat -> State, act: nat -> Action, i: nat, k: nat, c: ClientId)
    requires Behaviour(run, act) && i <= k && StillWaits(run, i, k, c) && ReaderInLoop(run(i).rpc)
    ensures ReaderInLoop(run(k).rpc) && run(i).h.received <= run(k).h.received
    ensures Received(run(k)) == Received(run(i)) + Arrived(run(i), run(k))
    decreases k
  {
    hide Behaviour, Received, ReaderInLoop;
    if i < k {
      ArrivalsAddUp(run, act, i, k - 1, c);
      ArrivalAt(run, act, k - 1, c);
      var a, b := Arrived(run(i), run(k - 1)), Arrived(run(k - 1), run(k));
      assert Arrived(run(i), run(k)) == a + b;
      assert Received(run(i)) + a + b == Received(run(i)) + (a + b);
    } else {
      assert Received(run(i)) + [] == Received(run(i));
    }
  }

  /** A check decides by the bytes in the buffer. */
  lemma CheckDecides(s: State)
    requires BufferShape(s) && ReaderEnabled(s, Check)
    ensures if Recognised(Classify(CStr(Received(s)))) then ReaderStep(s, Check).rpc.RAccepting?
            else ReaderStep(s, Check).rpc.RWaiting?
  {
    hide CStr, Classify;
    CStrPadded(s.rxbuf, s.rxlength);
    ClassifyIsLine(CStr(s.rxbuf));
  }

  /**
   * A check in the wait of a call accepts if and only if the bytes in the buffer at some moment of the wait,
   * together with those that have arrived since, end with a final result.  Other parties may step in between.
   */
  lemma BytesDecide(run: nat -> State, act: nat -> Action, i: nat, k: nat, c: ClientId)
    requires Behaviour(run, act) && i <= k && StillWaits(run, i, k, c) && ReaderInLoop(run(i).rpc)
    requires act(k) == Reader(Check)
    ensures if Recognised(Classify(CStr(Received(run(i)) + Arrived(run(i), run(k))))) then run(k + 1).rpc.RAccepting?
            else run(k + 1).rpc.RWaiting?
  {
    hide Arrived, CStr, Classify, Received, Recognised;
    ArrivalsAddUp(run, act, i, k, c);
    assert BufferShape(run(k)) by {
      BehaviourReaches(run, act, k);
      ReachableInv(run(k));
      assert Stream(run(k));
    }
    assert JustifiedAt(run, act, k);
    CheckDecides(run(k));
  }

  /** The frame completed in a wait is what was in the buffer and what has arrived, and the call returns it. */
  lemma CallReturnsWhatArrived(run: nat -> State, act: nat -> Action, i: nat, k: nat, c: ClientId)
    requires Behaviour(run, act) && Fair(run, act) && i <= k && StillWaits(run, i, k, c) && ReaderInLoop(run(i).rpc)
    requires act(k) == Reader(Accept)
    ensures var text := CStr(Received(run(i)) + Arrived(run(i), run(k)));
            Recognised(Classify(text)) && ReturnsWith(run, act, i, c, CurrentOp(run(i)), Answered(text, Classify(text)))
  {
    hide Arrived, CStr, Classify, Received, Behaviour, Fair;
    ArrivalsAddUp(run, act, i, k, c);
    var outcome := AnsweredExactly(run, act, i, c);
    assert AcceptedInWait(run, act, i, c);
    assert run(i).lock == Some(c);
  }

  /**
   * An answer that comes in time, whole and alone, is accepted at the next check if and only if the buffer did not
   * hold exactly one byte when it began to come.
   */
  lemma AnswerAcceptedExactly(
    run: nat -> State, act: nat -> Action, i: nat, k: nat, c: ClientId, code: Status)
    requires Behaviour(run, act) && i <= k && StillWaits(run, i, k, c) && ReaderInLoop(run(i).rpc)
    requires NUL !in Received(run(i)) && Recognised(code)
    requires Arrived(run(i), run(k)) == CRLF + Name(code) + CRLF && act(k) == Reader(Check)
    ensures if |Received(run(i))| == 1 then run(k + 1).rpc.RWaiting? else run(k + 1).rpc.RAccepting?
  {
    hide Arrived, CStr, Classify, Received, Behaviour, Name;
    StaleBytes(Received(run(i)), code);
    BytesDecide(run, act, i, k, c);
  }

  // What is in the way of an answer does happen.

  lemma NothingIsInvalid()
    ensures CStr([]) == "" && Classify("") == Invalid
  {
    NoLine("");
  }

  /** The reader waits for its first bytes, with all clients outside. */
  lemma Listening() returns (s: State)
    ensures Reachable(s) && SameClients(Start(), s) && s.rpc.RDraining? && BufferShape(s)
    ensures Received(s) == [] && s.rxlength == 0 && s.h.received == []
  {
    hide Reachable, CStr, Classify;
    InitReachable(Start());
    var s1 := Step(Start(), Reader(LockRx));
    var s2 := Step(s1, Reader(Clear));
    NothingIsInvalid();
    assert Received(s2) == [];
    CheckDecides(s2);
    var s3 := Step(s2, Reader(Check));
    s := Step(s3, Reader(Input));
    ReachableStep(Start(), Reader(LockRx));
    ReachableStep(s1, Reader(Clear));
    ReachableStep(s2, Reader(Check));
    ReachableStep(s3, Reader(Input));
  }

  /** One byte has come, and the reader goes on draining. */
  lemma FirstByte(b: char) returns (s: State)
    ensures Reachable(s) && SameClients(Start(), s) && s.rpc.RDraining? && BufferShape(s) && Received(s) == [b]
  {
    hide Reachable;
    var s1 := Listening();
    s := Step(s1, Reader(Byte(b)));
    ReachableStep(s1, Reader(Byte(b)));
    assert Received(s) == Received(s1) + [b];
  }

  /** A batch of bytes, and the check at its end. */
  lemma BatchDecides(s: State, q: seq<char>, c: ClientId) returns (t: State)
    requires s.rpc.RDraining? && BufferShape(s) && s.rxlength + |q| < RXBUF_SIZE
    ensures Leads(s, t, c) && SameClients(s, t) && Arrived(s, t) == q
    ensures if Recognised(Classify(CStr(Received(s) + q))) then t.rpc.RAccepting? else t.rpc.RWaiting?
  {
    hide Leads, CStr, Classify;
    var s1 := CanFeed(s, q, c);
    var s2 := Step(s1, Reader(Drained));
    CheckDecides(s2);
    t := Step(s2, Reader(Check));
    StaysThere(t, c);
    GoesThrough(s2, Reader(Check), t, c);
    GoesThrough(s1, Reader(Drained), t, c);
    LeadsOn(s, s1, t, c);
  }

  /** A command waits with the reader able to answer, the whole answer comes in time, and the check refuses it. */
  lemma StrayByteSpoilsAnswer(request: string, code: Status)
    requires Recognised(code)
    ensures exists s, t ::
              && Reachable(s) && s.lock == Some(0) && Holder(s) == Suspended(Execute(request))
              && ReaderCanAnswer(s) && Received(s) == "x"
              && Leads(s, t, 0) && Arrived(s, t) == CRLF + Name(code) + CRLF
              && Holder(t) == Holder(s) && t.rpc.RWaiting?
  {
    hide Reachable, Leads, CStr, Classify, Completable;
    var s0 := FirstByte('x');
    var s1 := Entering(s0, Execute(request));
    var s := CanSuspend(s1, 0);
    LeadsReaches(s1, s, 0);
    assert BufferShape(s) && Received(s) == "x";
    PlainTextCompletable("x");
    NameShort(code);
    StaleBytes("x", code);
    var t := BatchDecides(s, CRLF + Name(code) + CRLF, 0);
  }

  lemma NameShort(code: Status)
    requires Recognised(code)
    ensures |Name(code)| <= 11
  {
  }

  /** A NUL makes the reader deaf. */
  lemma DeafHappens()
    ensures exists s :: Reachable(s) && Deaf(s) && NUL in Received(s)
  {
    hide Reachable;
    var s := FirstByte(NUL);
    NothingIsInvalid();
    NulCompletable(Received(s));
    assert CStr([NUL]) == "";
  }

  /**
   * Once a NUL has come and what is before it is no final result, every call that has still to wait, then or
   * at any later time, returns a timeout.
   */
  lemma NulSilencesDriver(run: nat -> State, act: nat -> Action, i: nat, j: nat, c: ClientId)
    requires Behaviour(run, act) && Fair(run, act) && i <= j
    requires run(i).rpc.RChecking? || run(i).rpc.RWaiting? || run(i).rpc.RDraining?
    requires NUL in Received(run(i)) && !Recognised(Classify(CStr(Received(run(i)))))
    requires run(j).lock == Some(c) && BeforeReply(Holder(run(j)))
    ensures ReturnsWith(run, act, j, c, CurrentOp(run(j)), TimedOut)
  {
    hide Completable, Behaviour, Fair, CStr, Classify;
    NulCompletable(Received(run(i)));
    DeafForGood(run, act, i, j);
    HopelessCallTimesOut(run, act, j, c);
  }
}
