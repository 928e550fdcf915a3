/**
 * The reader after a call: one that the call finds parked is resumed, whatever the outcome, and listens again with
 * an empty buffer.  So a frame that nobody asked for costs one call only.
 */
module Sim8xxResumption {
  import opened Options
  import opened Sim8xxProtocol
  import opened Sim8xxSafety
  import opened Sim8xxLiveness
  import opened Sim8xxFairRuns
  import opened Sim8xxAnswers
  import opened Sim8xxAnswerable
  import opened Sim8xxCalls

  /** The holder of `lock` is about to resume a parked reader, or has done so since there were n frames. */
  predicate Resumes(s: State, n: nat) {
    var pc := Holder(s);
    && |s.h.frames| >= n
    && ((pc.Leaving? && s.rpc.RParked?) || pc.Resuming? || (pc.Unlocking? && Reopened(s, n)))
  }

  lemma ClientResumes(s: State, c: ClientId, a: ClientAction, n: nat)
    requires Mutex(s) && References(s) && Resumes(s, n) && ClientEnabled(s, c, a)
    requires Client(c, a) != Client(s.lock.value, DropLock)
    ensures Resumes(ClientStep(s, c, a), n)
  {
    HolderMoves(s, c, a);
  }

  lemma StepResumes(s: State, a: Action, n: nat)
    requires Mutex(s) && References(s) && s.lock.Some? && Resumes(s, n)
    requires Enabled(s, a) && a != Client(s.lock.value, DropLock)
    ensures Resumes(Step(s, a), n)
  {
    match a {
      case Client(c, ca) => ClientResumes(s, c, ca, n);
      case Reader(ra) =>
        ReaderKeepsHolder(s, ra);
        if Reopened(s, n) {
          ReaderReopened(s, ra, n);
        }
      case _ =>
    }
  }

  lemma ResumesAt(run: nat -> State, act: nat -> Action, i: nat, c: ClientId, n: nat)
    requires Behaviour(run, act) && run(i).lock == Some(c) && Resumes(run(i), n) && act(i) != Client(c, DropLock)
    ensures Resumes(run(i + 1), n)
  {
    hide Resumes;
    var s := run(i);
    assert Mutex(s) && References(s) by {
      BehaviourReaches(run, act, i);
      ReachableInv(s);
    }
    assert Enabled(s, act(i)) && run(i + 1) == Step(s, act(i)) by { assert JustifiedAt(run, act, i); }
    StepResumes(s, act(i), n);
  }

  lemma {:induction false} ResumesLasts(
    run: nat -> State, act: nat -> Action, i: nat, j: nat, c: ClientId, n: nat)
    requires Behaviour(run, act) && i <= j && Resumes(run(i), n)
    requires forall k :: i <= k <= j ==> run(k).lock == Some(c)
    ensures Resumes(run(j), n)
    decreases j
  {
    hide Resumes, Behaviour;
    if i < j {
      ResumesLasts(run, act, i, j - 1, c, n);
      assert run(j).lock == Some(c);
      DropLockReleases(run, act, j - 1, c);
      ResumesAt(run, act, j - 1, c, n);
    }
  }

  /**
   * A call that is leaving with the reader parked returns, whatever its outcome; by then the reader has been
   * resumed: it is neither saving nor parked, or has completed another frame since.
   */
  lemma ReaderIsResumed(run: nat -> State, act: nat -> Action, i: nat, c: ClientId) returns (j: nat)
    requires Behaviour(run, act) && Fair(run, act) && run(i).lock == Some(c)
    requires Holder(run(i)).Leaving? && run(i).rpc.RParked?
    ensures i <= j && act(j) == Client(c, DropLock) && forall k :: i <= k <= j ==> run(k).lock == Some(c)
    ensures |run(j + 1).h.frames| >= |run(i).h.frames|
    ensures FrameDone(run(j + 1).rpc) ==> |run(j + 1).h.frames| > |run(i).h.frames|
    ensures run(j + 1).lock.None? && run(j + 1).pcs == run(j).pcs[c := Idle]
  {
    hide Behaviour, Fair;
    j := ReleaseTime(run, act, i, c);
    ResumesLasts(run, act, i, j, c, |run(i).h.frames|);
    Returned(run, act, j, c, |run(i).h.frames|);
  }

  lemma Returned(run: nat -> State, act: nat -> Action, j: nat, c: ClientId, n: nat)
    requires Behaviour(run, act) && act(j) == Client(c, DropLock) && run(j).lock == Some(c) && Resumes(run(j), n)
    ensures Reopened(run(j + 1), n) && run(j + 1).lock.None? && run(j + 1).pcs == run(j).pcs[c := Idle]
  {
    assert JustifiedAt(run, act, j);
    assert Mutex(run(j)) by {
      BehaviourReaches(run, act, j);
      ReachableInv(run(j));
    }
  }

  // The way back to the input loop.

  /** A reader on its way back can go on, and nobody else moves it. */
  lemma WayBackStep(s: State, a: Action)
    requires Mutex(s) && References(s) && WayBackLength(s) > 0 && Enabled(s, a)
    ensures Enabled(s, WayBack(s))
    ensures a != WayBack(s) ==> Step(s, a).rpc == s.rpc
    ensures a == WayBack(s) ==> WayBackLength(Step(s, a)) == WayBackLength(s) - 1
    ensures a == Reader(Clear) ==> Step(s, a).rpc.RChecking? && Received(Step(s, a)) == []
  {
    match a {
      case Client(c, ca) => HolderMoves(s, c, ca);
      case _ =>
    }
  }

  lemma WayBackAt(run: nat -> State, act: nat -> Action, i: nat)
    requires Behaviour(run, act) && WayBackLength(run(i)) > 0
    ensures Enabled(run(i), WayBack(run(i)))
    ensures act(i) != WayBack(run(i)) ==> run(i + 1).rpc == run(i).rpc
    ensures act(i) == WayBack(run(i)) ==> WayBackLength(run(i + 1)) == WayBackLength(run(i)) - 1
    ensures act(i) == Reader(Clear) ==> run(i + 1).rpc.RChecking? && Received(run(i + 1)) == []
  {
    hide Received;
    var s := run(i);
    assert Mutex(s) && References(s) by {
      BehaviourReaches(run, act, i);
      ReachableInv(s);
    }
    assert Enabled(s, act(i)) && run(i + 1) == Step(s, act(i)) by { assert JustifiedAt(run, act, i); }
    WayBackStep(s, act(i));
  }

  /** The reader takes its next step on the way back. */
  lemma NextOnWayBack(run: nat -> State, act: nat -> Action, i: nat) returns (k: nat)
    requires Behaviour(run, act) && ReaderFair(run, act) && WayBackLength(run(i)) > 0
    ensures i <= k && act(k) == WayBack(run(i)) && run(k).rpc == run(i).rpc
  {
    hide Behaviour;
    var a := WayBack(run(i));
    assert Served(run, act, a, i);
    var n: nat :| i <= n && (act(n) == a || !Enabled(run(n), a));
    k := i;
    while k < n && act(k) != a
      invariant i <= k <= n && run(k).rpc == run(i).rpc
    {
      WayBackAt(run, act, k);
      k := k + 1;
    }
    WayBackAt(run, act, k);
  }

  /** A reader on its way back gets to its input loop, with an empty buffer. */
  lemma {:induction false} WayBackEnds(run: nat -> State, act: nat -> Action, i: nat) returns (j: nat)
    requires Behaviour(run, act) && ReaderFair(run, act) && WayBackLength(run(i)) > 0
    ensures i < j && act(j - 1) == Reader(Clear) && run(j).rpc.RChecking? && Received(run(j)) == []
    decreases WayBackLength(run(i))
  {
    hide Behaviour, ReaderFair, Received;
    var k := NextOnWayBack(run, act, i);
    WayBackAt(run, act, k);
    if WayBackLength(run(k + 1)) > 0 {
      j := WayBackEnds(run, act, k + 1);
    } else {
      j := k + 1;
    }
  }

  /** The moment of the resumption. */
  lemma ResumeTime(run: nat -> State, act: nat -> Action, i: nat, c: ClientId) returns (k: nat)
    requires Behaviour(run, act) && Fair(run, act) && run(i).lock == Some(c)
    requires Holder(run(i)).Leaving? && run(i).rpc.RParked?
    ensures i <= k && act(k) == Client(c, ResumeReader) && run(k + 1).rpc.RWoken?
  {
    hide Behaviour, Fair;
    var j := ReaderIsResumed(run, act, i, c);
    k := i;
    while k < j && act(k) != Client(c, ResumeReader)
      invariant i <= k <= j && run(k).rpc.RParked? && (Holder(run(k)).Leaving? || Holder(run(k)).Resuming?)
    {
      BeforeResume(run, act, k, c);
      k := k + 1;
    }
    BeforeResume(run, act, k, c);
  }

  lemma BeforeResume(run: nat -> State, act: nat -> Action, k: nat, c: ClientId)
    requires Behaviour(run, act) && run(k).lock == Some(c) && run(k).rpc.RParked?
    requires Holder(run(k)).Leaving? || Holder(run(k)).Resuming?
    ensures act(k) != Client(c, DropLock)
    ensures if act(k) == Client(c, ResumeReader) then run(k + 1).rpc.RWoken?
            else run(k + 1).rpc.RParked? && (Holder(run(k + 1)).Leaving? || Holder(run(k + 1)).Resuming?)
  {
    var s := run(k);
    assert Mutex(s) && References(s) by {
      BehaviourReaches(run, act, k);
      ReachableInv(s);
    }
    assert Enabled(s, act(k)) && run(k + 1) == Step(s, act(k)) by { assert JustifiedAt(run, act, k); }
    match act(k) {
      case Client(b, ca) => HolderMoves(s, b, ca);
      case Reader(ra) => ReaderKeepsHolder(s, ra);
      case _ =>
    }
  }

  /** After a call that found it parked the reader listens again, with an empty buffer. */
  lemma ReaderListensAgain(run: nat -> State, act: nat -> Action, i: nat, c: ClientId) returns (j: nat)
    requires Behaviour(run, act) && Fair(run, act) && ReaderFair(run, act) && run(i).lock == Some(c)
    requires Holder(run(i)).Leaving? && run(i).rpc.RParked?
    ensures i < j && run(j).rpc.RChecking? && Received(run(j)) == []
  {
    hide Behaviour, Fair, ReaderFair, Received;
    var k := ResumeTime(run, act, i, c);
    j := WayBackEnds(run, act, k + 1);
  }

  /**
   * The call that a frame has cost is the only one.  When it has returned, with no further frame completed and the
   * reader not deaf, the next call can be answered.
   */
  lemma FrameCostsOneCall(
    run: nat -> State, act: nat -> Action, i: nat, c: ClientId, d: ClientId, op: Op) returns (j: nat, s: State)
    requires Behaviour(run, act) && Fair(run, act) && run(i).lock == Some(c)
    requires Holder(run(i)).Leaving? && run(i).rpc.RParked?
    requires d in run(i).pcs && (d == c || run(i).pcs[d].Idle?) && !op.TogglePower?
    ensures i <= j && act(j) == Client(c, DropLock)
    ensures d in run(j + 1).pcs && run(j + 1).pcs[d].Idle? ==>
              && s == Do(Do(run(j + 1), Client(d, Call(op))), Client(d, TakeLock))
              && (|run(j + 1).h.frames| == |run(i).h.frames| && !Deaf(run(j + 1)) ==> AnsweredInSomeBehaviour(s, d))
  {
    hide Behaviour, Fair, Reachable, Deaf, AnsweredInSomeBehaviour;
    j := ReaderIsResumed(run, act, i, c);
    s := run(j + 1);
    if d in run(j + 1).pcs && run(j + 1).pcs[d].Idle? {
      BehaviourReaches(run, act, j + 1);
      s := NextCall(run(j + 1), d, op);
      if |run(j + 1).h.frames| == |run(i).h.frames| && !Deaf(run(j + 1)) {
        AnsweredIfPossible(s, d);
      }
    }
  }

  /** The next client enters. */
  lemma NextCall(t: State, d: ClientId, op: Op) returns (s: State)
    requires Reachable(t) && t.lock.None? && d in t.pcs && t.pcs[d].Idle? && !op.TogglePower?
    ensures s == Do(Do(t, Client(d, Call(op))), Client(d, TakeLock))
    ensures Reachable(s) && s.lock == Some(d) && BeforeReply(Holder(s))
    ensures FrameDone(s.rpc) == FrameDone(t.rpc) && (Deaf(s) <==> Deaf(t))
  {
    hide Reachable, Completable;
    ReachableStep(t, Client(d, Call(op)));
    s := Step(Step(t, Client(d, Call(op))), Client(d, TakeLock));
    ReachableStep(Step(t, Client(d, Call(op))), Client(d, TakeLock));
  }

  // An instance.

  /** A call with the reader parked, from its timeout to the test of the reader. */
  lemma TimesOut(s: State, op: Op) returns (t: State)
    requires Reachable(s) && s.lock == Some(0) && Holder(s) == Suspended(op) && s.rpc.RParked?
    ensures Reachable(t) && t.lock == Some(0) && Holder(t) == Leaving(op, TimedOut) && t.rpc.RParked?
    ensures t.h.returned == s.h.returned && t.h.orphans == s.h.orphans
  {
    hide Reachable;
    var s1 := Step(s, Client(0, WriterTimeout));
    var s2 := Step(s1, Client(0, ClearWriter));
    t := Step(s2, Client(0, GiveBack));
    ReachableStep(s, Client(0, WriterTimeout));
    ReachableStep(s1, Client(0, ClearWriter));
    ReachableStep(s2, Client(0, GiveBack));
  }

  lemma ParkedReference(s: State)
    requires Reachable(s)
    ensures s.reader <==> s.rpc.RParked?
  {
    ReachableInv(s);
    assert References(s);
  }

  lemma LeavesReader(s: State, op: Op) returns (t: State)
    requires Reachable(s) && s.lock == Some(0) && Holder(s) == Leaving(op, TimedOut) && s.rpc.RParked?
    ensures Reachable(t) && t.lock.None? && 0 in t.pcs && t.pcs[0].Idle? && t.rpc.RWoken?
    ensures t.h.returned == s.h.returned + [Return(0, op, TimedOut)] && t.h.orphans == s.h.orphans
  {
    hide Reachable;
    ParkedReference(s);
    var s1 := Step(s, Client(0, TestReader));
    var s2 := Step(s1, Client(0, ResumeReader));
    t := Step(s2, Client(0, DropLock));
    ReachableStep(s, Client(0, TestReader));
    ReachableStep(s1, Client(0, ResumeReader));
    ReachableStep(s2, Client(0, DropLock));
  }

  lemma NoWriter(s: State)
    requires Reachable(s) && s.lock.None?
    ensures s.writer.None?
  {
    ReachableInv(s);
    assert References(s);
  }

  /** A frame that nobody asked for is complete, and the reader parked. */
  lemma UnaskedFrame() returns (t: State)
    ensures Reachable(t) && t.rpc.RParked? && t.pcs == map[0 := Idle] && t.lock.None?
    ensures t.h.orphans == 1 && t.h.returned == []
  {
    hide Reachable, Leads;
    InitReachable(Start());
    var r := CanComplete(Start(), 0);
    LeadsReaches(Start(), r, 0);
    NoWriter(r);
    ReachableStep(r, Reader(Accept));
    t := Step(Step(r, Reader(Accept)), Reader(Park));
    ReachableStep(Step(r, Reader(Accept)), Reader(Park));
  }

  /** One frame that nobody asked for, one command that times out, and the next command can be answered. */
  lemma UnaskedFrameCostsOneCall(first: string, second: string)
    ensures exists s ::
              && Reachable(s) && s.h.orphans == 1 && s.h.returned == [Return(0, Execute(first), TimedOut)]
              && s.lock == Some(0) && Holder(s) == AtSync(Execute(second)) && AnsweredInSomeBehaviour(s, 0)
  {
    hide Reachable, Leads, AnsweredInSomeBehaviour;
    var s1 := UnaskedFrame();
    var s2 := Entering(s1, Execute(first));
    var s3 := CanSuspend(s2, 0);
    LeadsReaches(s2, s3, 0);
    var s4 := TimesOut(s3, Execute(first));
    var s5 := LeavesReader(s4, Execute(first));
    var s := Entering(s5, Execute(second));
    AnsweredIfPossible(s, 0);
  }
}
