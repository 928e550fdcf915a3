/**
 * No deadlock and no livelock in the modem driver: under a fair scheduler every call that has entered the
 * driver leaves it again, whatever the modem sends or fails to send and whatever the other clients do.
 */
module Sim8xxLiveness {
  import opened Options
  import opened ResultCodes
  import opened Sim8xxProtocol
  import opened Sim8xxSafety

  /** How far the holder of `lock` is from releasing it. */
  function Distance(pc: ClientPc): nat {
    match pc
    case Idle => 0
    case WantLock(_) => 0
    case AtSync(_) => 10
    case Sending(_) => 9
    case Sent(_) => 8
    case Suspended(_) => 7
    case Woken(_, _) => 6
    case WantRx(_) => 5
    case HoldsRx(_) => 4
    case Classified(_, _, _) => 3
    case GivingBack(_) => 3
    case Leaving(_, _) => 2
    case Resuming(_, _) => 1
    case Toggling => 1
    case Unlocking(_, _) => 0
  }

  /** How far the reader is from being parked. */
  function ReaderDistance(rpc: ReaderPc): nat {
    if rpc.RParked? then 0 else if rpc.RSaving? then 1 else 2
  }

  /** The progress measure. */
  function Rank(s: State): nat {
    var pc := Holder(s);
    6 * Distance(pc) + 2 * ReaderDistance(s.rpc) + (if pc.AtSync? && s.sync == 0 then 1 else 0)
  }

  /** The step the holder of `lock` is waiting for, its own or another party's. */
  function Helpful(s: State): Action
    requires s.lock.Some?
  {
    var c := s.lock.value;
    match Holder(s)
    case Idle => Stutter
    case WantLock(_) => Stutter
    case AtSync(_) => if s.sync > 0 then Client(c, TakeSync) else if s.rpc.RSaving? then Reader(Park) else TimerFire
    case Sending(_) => Client(c, Transmit)
    case Sent(_) => Client(c, Suspend)
    case Suspended(_) => Client(c, WriterTimeout)
    case Woken(_, _) => Client(c, ClearWriter)
    case WantRx(_) => if s.rpc.RSaving? then Reader(Park) else Client(c, TakeRx)
    case HoldsRx(_) => Client(c, CopyResponse)
    case Classified(_, _, _) => Client(c, DropRx)
    case GivingBack(_) => Client(c, GiveBack)
    case Leaving(_, _) => Client(c, TestReader)
    case Resuming(_, _) => Client(c, ResumeReader)
    case Toggling => Client(c, PowerDone)
    case Unlocking(_, _) => Client(c, DropLock)
  }

  /** The call the holder is executing. */
  function CurrentOp(s: State): Op {
    var pc := Holder(s);
    if pc.Toggling? || pc.Idle? then TogglePower else pc.op
  }

  /** The step waited for can always be taken. */
  lemma HelpfulEnabled(s: State)
    requires Mutex(s) && References(s) && Conservation(s) && s.lock.Some?
    ensures Enabled(s, Helpful(s)) && Prompt(Helpful(s))
  {
  }

  lemma HolderInside(s: State)
    requires Mutex(s) && s.lock.Some?
    ensures s.lock.value in s.pcs && Inside(Holder(s))
  {
  }

  /** The step waited for brings the release closer. */
  lemma HelpfulProgress(s: State)
    requires Mutex(s) && References(s) && s.lock.Some? && Enabled(s, Helpful(s))
    ensures Helpful(s) == Client(s.lock.value, DropLock) || Rank(Step(s, Helpful(s))) < Rank(s)
  {
    hide Mutex;
    HolderInside(s);
    match Helpful(s) {
      case Client(c, ca) => HolderMoves(s, c, ca);
      case Reader(ra) => ReaderKeepsHolder(s, ra);
      case _ =>
    }
  }

  /** A client's step: the holder of `lock` stays the same, and so does its call. */
  lemma HolderKept(s: State, c: ClientId, a: ClientAction)
    requires Mutex(s) && Outcomes(s) && s.lock.Some? && ClientEnabled(s, c, a)
    ensures var s' := ClientStep(s, c, a);
            Client(c, a) == Client(s.lock.value, DropLock) || (s'.lock == s.lock && CurrentOp(s') == CurrentOp(s))
  {
    hide Mutex;
    HolderMoves(s, c, a);
  }

  /** The only client that can do more than enter the queue is the holder, and only what it waits for. */
  lemma ClientActsAsAwaited(s: State, c: ClientId, a: ClientAction)
    requires Mutex(s) && References(s) && s.lock.Some? && ClientEnabled(s, c, a)
    ensures a.Call? || Client(c, a) == Helpful(s)
  {
  }

  /** A client's step: no progress of the holder is undone. */
  lemma ClientHarmless(s: State, c: ClientId, a: ClientAction)
    requires Mutex(s) && References(s) && s.lock.Some? && ClientEnabled(s, c, a)
    ensures var s' := ClientStep(s, c, a);
            || s'.lock.None?
            || Rank(s') < Rank(s) || (Rank(s') == Rank(s) && Helpful(s') == Helpful(s))
  {
    ClientActsAsAwaited(s, c, a);
    if !a.Call? {
      HelpfulProgress(s);
    }
  }

  lemma ReaderHarmless(s: State, a: ReaderAction)
    requires Mutex(s) && References(s) && s.lock.Some? && ReaderEnabled(s, a)
    ensures var s' := ReaderStep(s, a);
            && s'.lock == s.lock && CurrentOp(s') == CurrentOp(s)
            && (Rank(s') < Rank(s) || (Rank(s') == Rank(s) && Helpful(s') == Helpful(s)))
  {
    hide Mutex;
    ReaderKeepsHolder(s, a);
  }

  lemma Harmless(s: State, a: Action)
    requires Mutex(s) && References(s) && Outcomes(s) && s.lock.Some? && Enabled(s, a)
    ensures var s' := Step(s, a);
            || a == Client(s.lock.value, DropLock)
            || (&& s'.lock == s.lock && CurrentOp(s') == CurrentOp(s)
                && (Rank(s') < Rank(s) || (Rank(s') == Rank(s) && Helpful(s') == Helpful(s))))
  {
    match a
    case Client(c, ca) =>
      HolderKept(s, c, ca);
      ClientHarmless(s, c, ca);
    case Reader(ra) => ReaderHarmless(s, ra);
    case TimerFire =>
    case Stutter =>
  }

  // Infinite behaviours.

  ghost predicate JustifiedAt(run: nat -> State, act: nat -> Action, i: nat) {
    && (i == 0 ==> Init(run(0)))
    && Enabled(run(i), act(i)) && run(i + 1) == Step(run(i), act(i))
  }

  ghost predicate Behaviour(run: nat -> State, act: nat -> Action) {
    forall i: nat :: JustifiedAt(run, act, i)
  }

  /**
   * The steps that have to come in the end: those of a client inside the driver, the parking of the reader
   * and the expiry of the timers.  The rest of the reader and the modem may stop at any moment.
   */
  predicate Prompt(a: Action) {
    match a
    case Client(c, ca) => !ca.Call?
    case Reader(ra) => ra.Park?
    case TimerFire => true
    case Stutter => false
  }

  ghost predicate Served(run: nat -> State, act: nat -> Action, a: Action, i: nat) {
    exists j: nat :: i <= j && (act(j) == a || !Enabled(run(j), a))
  }

  /** Weak fairness: a prompt step is not enabled forever without being taken. */
  ghost predicate Fair(run: nat -> State, act: nat -> Action) {
    forall a, i: nat :: Prompt(a) ==> Served(run, act, a, i)
  }

  lemma {:induction false} BehaviourReaches(run: nat -> State, act: nat -> Action, i: nat)
    requires Behaviour(run, act)
    ensures Reachable(run(i))
  {
    if i == 0 {
      assert Init(run(0)) by { assert JustifiedAt(run, act, 0); }
      InitReachable(run(0));
    } else {
      var s, a := run(i - 1), act(i - 1);
      assert Enabled(s, a) && run(i) == Step(s, a) by { assert JustifiedAt(run, act, i - 1); }
      BehaviourReaches(run, act, i - 1);
      ReachableStep(s, a);
    }
  }

  /** One step of a behaviour, seen by the holder of `lock`. */
  lemma StepSeen(run: nat -> State, act: nat -> Action, i: nat, c: ClientId)
    requires Behaviour(run, act) && run(i).lock == Some(c)
    ensures Enabled(run(i), act(i))
    ensures Enabled(run(i), Helpful(run(i))) && Prompt(Helpful(run(i)))
    ensures || act(i) == Client(c, DropLock)
            || (&& run(i + 1).lock == Some(c) && CurrentOp(run(i + 1)) == CurrentOp(run(i))
                && (act(i) == Helpful(run(i)) ==> Rank(run(i + 1)) < Rank(run(i)))
                && (|| Rank(run(i + 1)) < Rank(run(i))
                    || (Rank(run(i + 1)) == Rank(run(i)) && Helpful(run(i + 1)) == Helpful(run(i)))))
  {
    var s := run(i);
    assert Mutex(s) && References(s) && Conservation(s) && Outcomes(s) by {
      BehaviourReaches(run, act, i);
      ReachableInv(s);
    }
    assert JustifiedAt(run, act, i);
    HelpfulEnabled(s);
    HelpfulProgress(s);
    Harmless(s, act(i));
  }

  lemma {:induction false} ReleaseTime(run: nat -> State, act: nat -> Action, i: nat, c: ClientId) returns (j: nat)
    requires Behaviour(run, act) && Fair(run, act) && run(i).lock == Some(c)
    ensures i <= j && act(j) == Client(c, DropLock)
    ensures CurrentOp(run(j)) == CurrentOp(run(i)) && forall k :: i <= k <= j ==> run(k).lock == Some(c)
    decreases Rank(run(i))
  {
    hide Rank, Helpful, CurrentOp, Enabled, Behaviour;
    var a := Helpful(run(i));
    StepSeen(run, act, i, c);
    assert Served(run, act, a, i);
    var n: nat :| i <= n && (act(n) == a || !Enabled(run(n), a));
    j := i;
    while true
      invariant i <= j <= n && CurrentOp(run(j)) == CurrentOp(run(i))
      invariant forall k :: i <= k <= j ==> run(k).lock == Some(c)
      invariant Helpful(run(j)) == a && Rank(run(j)) == Rank(run(i))
      decreases n - j
    {
      StepSeen(run, act, j, c);
      if act(j) == Client(c, DropLock) {
        return;
      }
      if Rank(run(j + 1)) < Rank(run(i)) {
        j := ReleaseTime(run, act, j + 1, c);
        return;
      }
      j := j + 1;
    }
  }

  lemma DropLockReleases(run: nat -> State, act: nat -> Action, i: nat, c: ClientId)
    requires Behaviour(run, act)
    ensures act(i) == Client(c, DropLock) ==> run(i + 1).lock.None?
  {
    assert JustifiedAt(run, act, i);
  }

  /** The next return of client c from step i on is at step j, and has this outcome. */
  ghost predicate EndsWith(
    run: nat -> State, act: nat -> Action, i: nat, j: nat, c: ClientId, op: Op, outcome: Outcome)
  {
    && act(j) == Client(c, DropLock) && run(j + 1).lock.None?
    && run(j + 1).h.returned == run(j).h.returned + [Return(c, op, outcome)]
    && forall k :: i <= k < j ==> act(k) != Client(c, DropLock)
  }

  /** The call that client c is making at step i returns with this outcome. */
  ghost predicate ReturnsWith(run: nat -> State, act: nat -> Action, i: nat, c: ClientId, op: Op, outcome: Outcome) {
    exists j: nat :: i <= j && EndsWith(run, act, i, j, c, op, outcome)
  }

  /** It returns, with a recognised code or a timeout. */
  ghost predicate Returns(run: nat -> State, act: nat -> Action, i: nat, c: ClientId, op: Op) {
    exists outcome :: ReturnsWith(run, act, i, c, op, outcome) && ExecuteStatus(outcome) != Invalid
  }

  /** What the return of a call looks like, once it has come. */
  lemma ReturnSeen(run: nat -> State, act: nat -> Action, i: nat, j: nat, c: ClientId) returns (outcome: Outcome)
    requires Behaviour(run, act) && i <= j && act(j) == Client(c, DropLock)
    requires forall k :: i <= k <= j ==> run(k).lock == Some(c)
    ensures EndsWith(run, act, i, j, c, CurrentOp(run(j)), outcome) && Faithful(CurrentOp(run(j)), outcome)
    ensures Holder(run(j)) == Unlocking(CurrentOp(run(j)), outcome)
  {
    assert Mutex(run(j)) && Outcomes(run(j)) by {
      BehaviourReaches(run, act, j);
      ReachableInv(run(j));
    }
    forall k | i <= k < j ensures act(k) != Client(c, DropLock) {
      assert run(k + 1).lock == Some(c);
      DropLockReleases(run, act, k, c);
    }
    assert JustifiedAt(run, act, j);
    outcome := Holder(run(j)).outcome;
  }

  /** Every call that has got hold of the driver returns. */
  lemma EveryCallReturns(run: nat -> State, act: nat -> Action, i: nat, c: ClientId)
    requires Behaviour(run, act) && Fair(run, act) && run(i).lock == Some(c)
    ensures Returns(run, act, i, c, CurrentOp(run(i)))
  {
    hide Behaviour, Fair, CurrentOp;
    var j := ReleaseTime(run, act, i, c);
    var outcome := ReturnSeen(run, act, i, j, c);
    assert ReturnsWith(run, act, i, c, CurrentOp(run(i)), outcome);
  }

  // Calls that still wait for `lock`.

  /** Strong fairness of the mutex: a waiter is not passed over for ever while the mutex comes free again and again. */
  ghost predicate MutexFair(run: nat -> State, act: nat -> Action) {
    forall c: ClientId, i: nat :: GivenTurn(run, act, c, i)
  }

  ghost predicate GivenTurn(run: nat -> State, act: nat -> Action, c: ClientId, i: nat) {
    exists j: nat :: i <= j && (act(j) == Client(c, TakeLock) || ShutOut(run, c, j))
  }

  ghost predicate ShutOut(run: nat -> State, c: ClientId, j: nat) {
    forall k: nat :: j <= k ==> !Enabled(run(k), Client(c, TakeLock))
  }

  lemma ClientKeepsWaiting(s: State, b: ClientId, a: ClientAction, c: ClientId)
    requires ClientEnabled(s, b, a) && c in s.pcs && s.pcs[c].WantLock? && !(b == c && a.TakeLock?)
    ensures c in ClientStep(s, b, a).pcs && ClientStep(s, b, a).pcs[c] == s.pcs[c]
  {
    assert b != c;
  }

  lemma StepKeepsWaiting(s: State, a: Action, c: ClientId)
    requires Enabled(s, a) && c in s.pcs && s.pcs[c].WantLock? && a != Client(c, TakeLock)
    ensures c in Step(s, a).pcs && Step(s, a).pcs[c] == s.pcs[c]
  {
    if a.Client? {
      ClientKeepsWaiting(s, a.c, a.ca, c);
    }
  }

  lemma EntryKeepsCall(s: State, c: ClientId)
    requires ClientEnabled(s, c, TakeLock)
    ensures ClientStep(s, c, TakeLock).lock == Some(c)
    ensures CurrentOp(ClientStep(s, c, TakeLock)) == s.pcs[c].op
  {
  }

  /** A waiting client waits on until its turn comes, which is reported if it comes before n. */
  lemma WaitsOn(run: nat -> State, act: nat -> Action, i: nat, n: nat, c: ClientId) returns (j: nat)
    requires Behaviour(run, act) && i <= n
    requires c in run(i).pcs && run(i).pcs[c].WantLock?
    ensures i <= j <= n && c in run(j).pcs && run(j).pcs[c] == run(i).pcs[c]
    ensures j < n ==> act(j) == Client(c, TakeLock)
    ensures forall k :: i <= k < j ==> act(k) != Client(c, DropLock)
  {
    j := i;
    while j < n && act(j) != Client(c, TakeLock)
      invariant i <= j <= n && c in run(j).pcs && run(j).pcs[c] == run(i).pcs[c]
      invariant forall k :: i <= k < j ==> act(k) != Client(c, DropLock)
    {
      assert Enabled(run(j), act(j)) && run(j + 1) == Step(run(j), act(j)) by { assert JustifiedAt(run, act, j); }
      StepKeepsWaiting(run(j), act(j), c);
      j := j + 1;
    }
  }

  /** The mutex comes free again and again. */
  lemma LockComesFree(run: nat -> State, act: nat -> Action, i: nat) returns (j: nat)
    requires Behaviour(run, act) && Fair(run, act)
    ensures i <= j && run(j).lock.None?
  {
    j := i;
    if run(i).lock.Some? {
      var k := ReleaseTime(run, act, i, run(i).lock.value);
      assert JustifiedAt(run, act, k);
      j := k + 1;
    }
  }

  lemma EntryTime(run: nat -> State, act: nat -> Action, i: nat, c: ClientId) returns (j: nat)
    requires Behaviour(run, act) && Fair(run, act) && MutexFair(run, act)
    requires c in run(i).pcs && run(i).pcs[c].WantLock?
    ensures i <= j && act(j) == Client(c, TakeLock) && forall k :: i <= k < j ==> act(k) != Client(c, DropLock)
    ensures c in run(j).pcs && run(j).pcs[c] == run(i).pcs[c]
  {
    assert GivenTurn(run, act, c, i);
    var n: nat :| i <= n && (act(n) == Client(c, TakeLock) || ShutOut(run, c, n));
    j := WaitsOn(run, act, i, n, c);
    if j == n && act(n) != Client(c, TakeLock) {
      var k := LockComesFree(run, act, n);
      j := WaitsOn(run, act, i, k, c);
      assert !Enabled(run(k), Client(c, TakeLock));
    }
  }

  /** Every call ever made returns. */
  lemma EveryCallMadeReturns(run: nat -> State, act: nat -> Action, i: nat, c: ClientId)
    requires Behaviour(run, act) && Fair(run, act) && MutexFair(run, act)
    requires c in run(i).pcs && run(i).pcs[c].WantLock?
    ensures Returns(run, act, i, c, run(i).pcs[c].op)
  {
    hide Behaviour, Fair, MutexFair, EndsWith, Rank, Helpful;
    var op := run(i).pcs[c].op;
    var e := EntryTime(run, act, i, c);
    EntryStep(run, act, e, c);
    EveryCallReturns(run, act, e + 1, c);
    var outcome :| ReturnsWith(run, act, e + 1, c, op, outcome) && ExecuteStatus(outcome) != Invalid;
    var j: nat :| e + 1 <= j && EndsWith(run, act, e + 1, j, c, op, outcome);
    ReturnsSince(run, act, i, e + 1, j, c, op, outcome);
  }

  lemma EntryStep(run: nat -> State, act: nat -> Action, e: nat, c: ClientId)
    requires Behaviour(run, act) && act(e) == Client(c, TakeLock)
    ensures ClientEnabled(run(e), c, TakeLock)
    ensures run(e + 1).lock == Some(c) && CurrentOp(run(e + 1)) == run(e).pcs[c].op
  {
    assert JustifiedAt(run, act, e);
    EntryKeepsCall(run(e), c);
  }

  /** The next return of a client, seen from an earlier step. */
  lemma ReturnsSince(run: nat -> State, act: nat -> Action, i: nat, e: nat, j: nat, c: ClientId, op: Op, o: Outcome)
    requires i <= e <= j && EndsWith(run, act, e, j, c, op, o)
    requires forall k :: i <= k < e ==> act(k) != Client(c, DropLock)
    ensures EndsWith(run, act, i, j, c, op, o) && ReturnsWith(run, act, i, c, op, o)
  {
  }
}
