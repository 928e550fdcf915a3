/**
 * Which calls get an answer?  The outcome of a call is decided by what the reader does between the call's
 * suspension and the end of that wait; a frame that completes earlier is lost, and its place is not freed.
 */
module Sim8xxAnswers {
  import opened CStrings
  import opened Options
  import opened ResultCodes
  import opened Sim8xxProtocol
  import opened Sim8xxSafety
  import opened Sim8xxLiveness

  /** The call is inside the driver and nothing has been decided by its own steps. */
  predicate BeforeReply(pc: ClientPc) {
    pc.AtSync? || pc.Sending? || pc.Sent? || pc.Suspended?
  }

  /** What is already certain about the outcome of the call that holds `lock`. */
  datatype Fate = Open | Lost | Won

  function FateOf(s: State): Fate {
    var pc := Holder(s);
    if (pc.Woken? && pc.ok) || pc.WantRx? || pc.HoldsRx? || pc.Classified? then Won
    else if (pc.Woken? && !pc.ok) || pc.GivingBack? then Lost
    else if pc.Leaving? || pc.Resuming? || pc.Unlocking? then
      if pc.outcome.Answered? then Won else if pc.outcome.TimedOut? then Lost else Open
    else if BeforeReply(pc) && FrameDone(s.rpc) then Lost
    else Open
  }

  /** The outcome itself, once it is decided. */
  function Due(s: State): Outcome {
    var pc := Holder(s);
    if PickupDue(pc) then Answered(CStr(s.rxbuf), Classify(CStr(s.rxbuf)))
    else if pc.Classified? then Answered(pc.response, pc.status)
    else if pc.Leaving? || pc.Resuming? || pc.Unlocking? then pc.outcome
    else TimedOut
  }

  lemma ClientKeepsFate(s: State, c: ClientId, a: ClientAction)
    requires Mutex(s) && References(s) && FateOf(s) != Open && ClientEnabled(s, c, a)
    ensures var s' := ClientStep(s, c, a);
            || Client(c, a) == Client(s.lock.value, DropLock)
            || (FateOf(s') == FateOf(s) && Due(s') == Due(s))
  {
    hide Mutex, CStr, Classify;
    HolderMoves(s, c, a);
  }

  /** Once decided, the outcome stays decided, whatever anybody does. */
  lemma FateKept(s: State, a: Action)
    requires Mutex(s) && References(s) && s.lock.Some? && FateOf(s) != Open && Enabled(s, a)
    ensures || a == Client(s.lock.value, DropLock)
            || (FateOf(Step(s, a)) == FateOf(s) && Due(Step(s, a)) == Due(s))
  {
    hide Mutex, CStr, Classify;
    match a {
      case Client(c, ca) => ClientKeepsFate(s, c, ca);
      case Reader(ra) => ReaderKeepsHolder(s, ra);
      case _ =>
    }
  }

  lemma FateAt(run: nat -> State, act: nat -> Action, i: nat, c: ClientId)
    requires Behaviour(run, act) && run(i).lock == Some(c) && FateOf(run(i)) != Open && act(i) != Client(c, DropLock)
    ensures FateOf(run(i + 1)) == FateOf(run(i)) && Due(run(i + 1)) == Due(run(i))
  {
    hide FateOf, Due;
    var s, a := run(i), act(i);
    assert Mutex(s) && References(s) by {
      BehaviourReaches(run, act, i);
      ReachableInv(s);
    }
    assert Enabled(s, a) && run(i + 1) == Step(s, a) by { assert JustifiedAt(run, act, i); }
    FateKept(s, a);
  }

  lemma {:induction false} FateLasts(run: nat -> State, act: nat -> Action, i: nat, j: nat, c: ClientId)
    requires Behaviour(run, act) && i <= j && FateOf(run(i)) != Open
    requires forall k :: i <= k <= j ==> run(k).lock == Some(c)
    ensures FateOf(run(j)) == FateOf(run(i)) && Due(run(j)) == Due(run(i))
    decreases j
  {
    hide FateOf, Due, Behaviour;
    if i < j {
      FateLasts(run, act, i, j - 1, c);
      assert run(j).lock == Some(c);
      DropLockReleases(run, act, j - 1, c);
      FateAt(run, act, j - 1, c);
    }
  }

  /** The return of a call whose outcome is decided. */
  lemma FateComesTrue(run: nat -> State, act: nat -> Action, i: nat, c: ClientId) returns (outcome: Outcome)
    requires Behaviour(run, act) && Fair(run, act) && run(i).lock == Some(c) && FateOf(run(i)) != Open
    ensures ReturnsWith(run, act, i, c, CurrentOp(run(i)), outcome) && outcome == Due(run(i))
    ensures if FateOf(run(i)).Won? then outcome.Answered? && Recognised(outcome.status) else outcome == TimedOut
  {
    hide Behaviour, Fair, CurrentOp;
    var j := ReleaseTime(run, act, i, c);
    FateLasts(run, act, i, j, c);
    outcome := ReturnSeen(run, act, i, j, c);
  }

  /**
   * A frame that is complete before the writer suspends dooms the call: as long as the reader is saving or
   * parked when the call has still to wait, the call returns, and returns a timeout.
   */
  lemma EarlyFrameDoomsCall(run: nat -> State, act: nat -> Action, i: nat, c: ClientId)
    requires Behaviour(run, act) && Fair(run, act) && run(i).lock == Some(c)
    requires BeforeReply(Holder(run(i))) && FrameDone(run(i).rpc)
    ensures ReturnsWith(run, act, i, c, CurrentOp(run(i)), TimedOut)
  {
    var _ := FateComesTrue(run, act, i, c);
  }

  /** A frame completed while the writer c was suspended. */
  ghost predicate AcceptedInWait(run: nat -> State, act: nat -> Action, i: nat, c: ClientId) {
    exists k: nat :: i <= k && act(k) == Reader(Accept) && StillWaits(run, i, k, c)
  }

  ghost predicate StillWaits(run: nat -> State, i: nat, k: nat, c: ClientId) {
    forall m :: i <= m <= k ==> run(m).lock == Some(c) && Holder(run(m)).Suspended?
  }

  /** The answer that the receive buffer holds. */
  function AnswerIn(s: State): Outcome {
    Answered(CStr(Received(s)), Classify(CStr(Received(s))))
  }

  /** The step that ends a wait. */
  lemma WaitStep(s: State, a: Action)
    requires Mutex(s) && References(s) && BufferShape(s) && Holder(s).Suspended? && Enabled(s, a)
    ensures var s' := Step(s, a);
            && s'.lock == s.lock
            && (a == Reader(Accept) ==> FateOf(s').Won? && Due(s') == AnswerIn(s))
            && (a == Client(s.lock.value, WriterTimeout) ==> FateOf(s').Lost?)
            && (a == Reader(Accept) || a == Client(s.lock.value, WriterTimeout) <==> !Holder(s').Suspended?)
  {
    hide Mutex, CStr, Classify;
    CStrPadded(s.rxbuf, s.rxlength);
    match a {
      case Client(c, ca) => HolderMoves(s, c, ca);
      case Reader(ra) => ReaderKeepsHolder(s, ra);
      case _ =>
    }
  }

  lemma WaitStepAt(run: nat -> State, act: nat -> Action, i: nat, c: ClientId)
    requires Behaviour(run, act) && run(i).lock == Some(c) && Holder(run(i)).Suspended?
    ensures run(i + 1).lock == Some(c)
    ensures act(i) == Reader(Accept) ==> FateOf(run(i + 1)).Won? && Due(run(i + 1)) == AnswerIn(run(i))
    ensures act(i) == Client(c, WriterTimeout) ==> FateOf(run(i + 1)).Lost?
    ensures act(i) == Reader(Accept) || act(i) == Client(c, WriterTimeout) <==> !Holder(run(i + 1)).Suspended?
  {
    hide FateOf, Due, AnswerIn, BufferShape;
    var s := run(i);
    assert Mutex(s) && References(s) && BufferShape(s) by {
      BehaviourReaches(run, act, i);
      ReachableInv(s);
      assert Stream(s);
    }
    assert Enabled(s, act(i)) && run(i + 1) == Step(s, act(i)) by { assert JustifiedAt(run, act, i); }
    WaitStep(s, act(i));
  }

  /** The last moment of a wait. */
  lemma WaitEnds(run: nat -> State, act: nat -> Action, i: nat, c: ClientId) returns (k: nat)
    requires Behaviour(run, act) && Fair(run, act) && run(i).lock == Some(c) && Holder(run(i)).Suspended?
    ensures i <= k && StillWaits(run, i, k, c) && (act(k) == Reader(Accept) || act(k) == Client(c, WriterTimeout))
  {
    hide FateOf, Behaviour, Fair;
    var j := ReleaseTime(run, act, i, c);
    k := i;
    while k < j && act(k) != Reader(Accept) && act(k) != Client(c, WriterTimeout)
      invariant i <= k <= j && StillWaits(run, i, k, c)
      decreases j - k
    {
      WaitStepAt(run, act, k, c);
      k := k + 1;
    }
    if k == j {
      assert Enabled(run(j), act(j)) by { StepSeen(run, act, j, c); }
      assert false;
    }
  }

  lemma NoReturnInWait(run: nat -> State, act: nat -> Action, i: nat, k: nat, c: ClientId)
    requires Behaviour(run, act) && i <= k && StillWaits(run, i, k, c) && run(k + 1).lock == Some(c)
    ensures forall n :: i <= n <= k ==> act(n) != Client(c, DropLock)
  {
    forall n | i <= n <= k ensures act(n) != Client(c, DropLock) {
      DropLockReleases(run, act, n, c);
      assert n < k ==> run(n + 1).lock == Some(c);
    }
  }

  lemma WaitEndsOnce(run: nat -> State, act: nat -> Action, i: nat, k: nat, n: nat, c: ClientId)
    requires Behaviour(run, act) && i <= k && StillWaits(run, i, k, c) && StillWaits(run, i, n, c)
    requires act(k) == Reader(Accept) || act(k) == Client(c, WriterTimeout)
    ensures n <= k
  {
    WaitStepAt(run, act, k, c);
  }

  lemma {:induction false} OpLasts(run: nat -> State, act: nat -> Action, i: nat, j: nat, c: ClientId)
    requires Behaviour(run, act) && i <= j
    requires forall k :: i <= k <= j ==> run(k).lock == Some(c)
    ensures CurrentOp(run(j)) == CurrentOp(run(i))
    decreases j
  {
    hide Rank, Helpful, CurrentOp, Enabled, Behaviour;
    if i < j {
      OpLasts(run, act, i, j - 1, c);
      StepSeen(run, act, j - 1, c);
      assert run(j).lock == Some(c);
      DropLockReleases(run, act, j - 1, c);
    }
  }

  /**
   * A suspended call is answered if and only if a frame completes in its wait, and then with this frame;
   * otherwise it times out.
   */
  lemma AnsweredExactly(run: nat -> State, act: nat -> Action, i: nat, c: ClientId) returns (outcome: Outcome)
    requires Behaviour(run, act) && Fair(run, act) && run(i).lock == Some(c) && Holder(run(i)).Suspended?
    ensures ReturnsWith(run, act, i, c, CurrentOp(run(i)), outcome)
    ensures AcceptedInWait(run, act, i, c) <==> outcome.Answered?
    ensures AcceptedInWait(run, act, i, c) <==> outcome != TimedOut
    ensures outcome.Answered? ==> Recognised(outcome.status)
    ensures forall k :: i <= k && act(k) == Reader(Accept) && StillWaits(run, i, k, c) ==> outcome == AnswerIn(run(k))
  {
    hide FateOf, Due, AnswerIn, Behaviour, Fair, CurrentOp, Recognised;
    var k := WaitEnds(run, act, i, c);
    WaitStepAt(run, act, k, c);
    OpLasts(run, act, i, k + 1, c);
    outcome := FateComesTrue(run, act, k + 1, c);
    var j: nat :| k + 1 <= j && EndsWith(run, act, k + 1, j, c, CurrentOp(run(i)), outcome);
    assert EndsWith(run, act, i, j, c, CurrentOp(run(i)), outcome) by { NoReturnInWait(run, act, i, k, c); }
    forall n: nat | i <= n && act(n) == Reader(Accept) && StillWaits(run, i, n, c) ensures n == k {
      WaitEndsOnce(run, act, i, n, k, c);
      WaitEndsOnce(run, act, i, k, n, c);
    }
  }

  // Frames that nobody asked for.

  predicate EntersToWait(s: State, a: Action) {
    a.Client? && a.ca.TakeLock? && a.c in s.pcs && s.pcs[a.c].WantLock? && !s.pcs[a.c].op.TogglePower?
  }

  /** The reader has a frame, and no call is inside that could ever take it or resume the reader. */
  predicate Unheard(s: State) {
    && FrameDone(s.rpc)
    && var pc := Holder(s);
       s.lock.None? || pc.Toggling? || (pc.Unlocking? && pc.outcome.Toggled?)
  }

  lemma UnheardKept(s: State, a: Action)
    requires Mutex(s) && References(s) && Outcomes(s) && Unheard(s) && Enabled(s, a)
    ensures var s' := Step(s, a);
            if EntersToWait(s, a)
            then s'.lock == Some(a.c) && Holder(s') == AtSync(s.pcs[a.c].op) && FrameDone(s'.rpc)
            else Unheard(s')
  {
    match a {
      case Client(c, ca) => HolderMoves(s, c, ca);
      case Reader(ra) => ReaderKeepsHolder(s, ra);
      case _ =>
    }
  }

  lemma UnheardAt(run: nat -> State, act: nat -> Action, i: nat)
    requires Behaviour(run, act) && Unheard(run(i))
    ensures if EntersToWait(run(i), act(i))
            then var c, op := act(i).c, run(i).pcs[act(i).c].op;
                 run(i + 1).lock == Some(c) && Holder(run(i + 1)) == AtSync(op) && FrameDone(run(i + 1).rpc)
            else Unheard(run(i + 1))
  {
    hide Unheard;
    var s := run(i);
    assert Mutex(s) && References(s) && Outcomes(s) by {
      BehaviourReaches(run, act, i);
      ReachableInv(s);
    }
    assert Enabled(s, act(i)) && run(i + 1) == Step(s, act(i)) by { assert JustifiedAt(run, act, i); }
    UnheardKept(s, act(i));
  }

  lemma {:induction false} UnheardLasts(run: nat -> State, act: nat -> Action, i: nat, j: nat)
    requires Behaviour(run, act) && i <= j && Unheard(run(i))
    requires forall k :: i <= k < j ==> !EntersToWait(run(k), act(k))
    ensures Unheard(run(j))
    decreases j
  {
    hide Unheard, EntersToWait, Behaviour;
    if i < j {
      UnheardLasts(run, act, i, j - 1);
      UnheardAt(run, act, j - 1);
    }
  }

  lemma OrphanUnheard(run: nat -> State, act: nat -> Action, i: nat)
    requires Behaviour(run, act) && act(i) == Reader(Accept) && run(i).lock.None?
    ensures Unheard(run(i + 1))
  {
    BehaviourReaches(run, act, i);
    assert References(run(i)) by { ReachableInv(run(i)); }
    assert JustifiedAt(run, act, i);
  }

  /**
   * A frame that completes while no call is inside the driver costs the next command its answer, power
   * toggles in between or not: the first call to enter and wait returns a timeout.
   */
  lemma UnsolicitedFrameCostsAnswer(run: nat -> State, act: nat -> Action, i: nat, j: nat, c: ClientId)
    requires Behaviour(run, act) && Fair(run, act)
    requires i < j && act(i) == Reader(Accept) && run(i).lock.None?
    requires act(j) == Client(c, TakeLock) && EntersToWait(run(j), act(j))
    requires forall k :: i < k < j ==> !EntersToWait(run(k), act(k))
    ensures ReturnsWith(run, act, j, c, run(j).pcs[c].op, TimedOut)
  {
    hide Unheard, Behaviour, Fair, FrameDone;
    OrphanUnheard(run, act, i);
    UnheardLasts(run, act, i + 1, j);
    UnheardAt(run, act, j);
    EarlyFrameDoomsCall(run, act, j + 1, c);
    var k: nat :| j + 1 <= k && EndsWith(run, act, j + 1, k, c, run(j).pcs[c].op, TimedOut);
    assert EndsWith(run, act, j, k, c, run(j).pcs[c].op, TimedOut);
  }
}
