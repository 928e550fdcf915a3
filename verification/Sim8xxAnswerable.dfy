/** When can a call that is inside the driver still get an answer?  The exact condition, and examples of both. */
module Sim8xxAnswerable {
  import opened CStrings
  import opened Options
  import opened ResultCodes
  import opened Sim8xxProtocol
  import opened Sim8xxSafety
  import opened Sim8xxLiveness
  import opened Sim8xxFairRuns
  import opened Sim8xxAnswers

  /** The bytes can be continued, within the buffer, to a text that ends with a final result. */
  ghost predicate Completable(p: seq<char>) {
    exists q: seq<char> :: Completes(p, q)
  }

  ghost predicate Completes(p: seq<char>, q: seq<char>) {
    |p + q| < RXBUF_SIZE && Recognised(Classify(CStr(p + q)))
  }

  /** As long as no NUL has come and a line has room, the bytes can be completed. */
  lemma PlainTextCompletable(p: seq<char>)
    requires NUL !in p && |p| + 8 < RXBUF_SIZE
    ensures Completable(p)
  {
    hide CStr, Classify, EndsWithLine;
    var text := p + "ok" + CRLF + Name(Ok) + CRLF;
    RoundTrip(p + "ok", Ok);
    CStrIs(text, |text|);
    assert text[..|text|] == text;
    assert p + ("ok" + CRLF + Name(Ok) + CRLF) == text;
    assert Completes(p, "ok" + CRLF + Name(Ok) + CRLF);
  }

  /** Behind a NUL nothing is seen: then the bytes are complete, or never will be. */
  lemma NulCompletable(p: seq<char>)
    requires NUL in p
    ensures Completable(p) <==> |p| < RXBUF_SIZE && Recognised(Classify(CStr(p)))
  {
    forall q ensures CStr(p + q) == CStr(p) {
      CStrPrefix(p);
      CStrIs(p + q, |CStr(p)|);
    }
    assert p + [] == p;
    assert Completable(p) ==> exists q :: Completes(p, q);
    if |p| < RXBUF_SIZE && Recognised(Classify(CStr(p))) {
      assert Completes(p, []);
    }
  }

  /** The reader listens for bytes that can never become a final result. */
  ghost predicate Deaf(s: State) {
    (s.rpc.RChecking? || s.rpc.RWaiting? || s.rpc.RDraining?) && !Completable(Received(s))
  }

  /** Neither a frame waits to be saved or resumed, nor is the reader deaf. */
  ghost predicate ReaderCanAnswer(s: State) {
    !FrameDone(s.rpc) && !Deaf(s)
  }

  lemma DeafByte(s: State, b: char)
    requires Stream(s) && Deaf(s) && ReaderEnabled(s, Byte(b))
    ensures Deaf(ReaderStep(s, Byte(b)))
  {
    hide Completes, Flatten, CStr, Classify;
    var p, p' := Received(s), Received(ReaderStep(s, Byte(b)));
    assert p' == p + [b];
    forall q | Completes(p', q) ensures Completes(p, [b] + q) {
      SameText(p, b, q);
    }
  }

  lemma SameText(p: seq<char>, b: char, q: seq<char>)
    ensures Completes(p + [b], q) <==> Completes(p, [b] + q)
  {
    assert p + [b] + q == p + ([b] + q);
  }

  lemma DeafCheck(s: State)
    requires Stream(s) && Deaf(s) && ReaderEnabled(s, Check)
    ensures Deaf(ReaderStep(s, Check))
  {
    hide Flatten;
    CStrPadded(s.rxbuf, s.rxlength);
    ClassifyIsLine(CStr(s.rxbuf));
    assert Received(s) + [] == Received(s);
    assert !Completes(Received(s), []);
  }

  /** A deaf reader stays deaf, and completes no frame. */
  lemma DeafKept(s: State, a: Action)
    requires Mutex(s) && References(s) && Stream(s) && Deaf(s) && Enabled(s, a)
    ensures Deaf(Step(s, a)) && a != Reader(Accept)
  {
    hide Completable, Flatten, CStr, Classify;
    match a {
      case Client(c, ca) => HolderMoves(s, c, ca);
      case Reader(Byte(b)) => DeafByte(s, b);
      case Reader(Check) => DeafCheck(s);
      case _ =>
    }
  }

  /** The call that holds `lock` can only time out. */
  ghost predicate Hopeless(s: State) {
    FateOf(s).Lost? || (BeforeReply(Holder(s)) && Deaf(s))
  }

  lemma DeafHolder(s: State, a: Action)
    requires Mutex(s) && References(s) && s.lock.Some? && Enabled(s, a) && a != Reader(Accept)
    requires BeforeReply(Holder(s))
    ensures BeforeReply(Holder(Step(s, a))) || FateOf(Step(s, a)).Lost?
  {
    match a {
      case Client(c, ca) => HolderMoves(s, c, ca);
      case Reader(ra) => ReaderKeepsHolder(s, ra);
      case _ =>
    }
  }

  lemma HopelessKept(s: State, a: Action)
    requires Mutex(s) && References(s) && Stream(s) && Outcomes(s) && s.lock.Some? && Hopeless(s)
    requires Enabled(s, a) && a != Client(s.lock.value, DropLock)
    ensures Step(s, a).lock == s.lock && Hopeless(Step(s, a))
  {
    hide FateOf, Deaf, Mutex, References, Stream, Outcomes, Rank, Helpful;
    Harmless(s, a);
    if FateOf(s).Lost? {
      FateKept(s, a);
    } else {
      DeafKept(s, a);
      DeafHolder(s, a);
    }
  }

  lemma HopelessAt(run: nat -> State, act: nat -> Action, i: nat, c: ClientId)
    requires Behaviour(run, act) && run(i).lock == Some(c) && Hopeless(run(i)) && act(i) != Client(c, DropLock)
    ensures Hopeless(run(i + 1))
  {
    hide Hopeless;
    var s, a := run(i), act(i);
    assert Mutex(s) && References(s) && Stream(s) && Outcomes(s) by {
      BehaviourReaches(run, act, i);
      ReachableInv(s);
    }
    hide Mutex, References, Stream, Outcomes;
    assert Enabled(s, a) && run(i + 1) == Step(s, a) by { assert JustifiedAt(run, act, i); }
    HopelessKept(s, a);
  }

  lemma {:induction false} HopelessLasts(run: nat -> State, act: nat -> Action, i: nat, j: nat, c: ClientId)
    requires Behaviour(run, act) && i <= j && Hopeless(run(i))
    requires forall k :: i <= k <= j ==> run(k).lock == Some(c)
    ensures Hopeless(run(j))
    decreases j
  {
    hide Hopeless, Behaviour;
    if i < j {
      HopelessLasts(run, act, i, j - 1, c);
      assert run(j).lock == Some(c);
      DropLockReleases(run, act, j - 1, c);
      HopelessAt(run, act, j - 1, c);
    }
  }

  /** A call without hope returns a timeout. */
  lemma HopelessCallTimesOut(run: nat -> State, act: nat -> Action, i: nat, c: ClientId)
    requires Behaviour(run, act) && Fair(run, act) && run(i).lock == Some(c) && Hopeless(run(i))
    ensures ReturnsWith(run, act, i, c, CurrentOp(run(i)), TimedOut)
  {
    var j := ReleaseTime(run, act, i, c);
    HopelessLasts(run, act, i, j, c);
    var outcome := ReturnSeen(run, act, i, j, c);
    assert outcome == TimedOut;
  }

  // What is possible: finite continuations.

  /** From s the system can get to t without the end of the call that c is executing. */
  ghost predicate Leads(s: State, t: State, c: ClientId) {
    exists actions :: Path(s, actions, t) && Client(c, DropLock) !in actions
  }

  lemma StaysThere(s: State, c: ClientId)
    ensures Leads(s, s, c)
  {
    assert Path(s, [], s);
  }

  lemma GoesThrough(s: State, a: Action, t: State, c: ClientId)
    requires Enabled(s, a) && a != Client(c, DropLock) && Leads(Step(s, a), t, c)
    ensures Leads(s, t, c)
  {
    var actions :| Path(Step(s, a), actions, t) && Client(c, DropLock) !in actions;
    assert ([a] + actions)[1..] == actions;
    assert Path(s, [a] + actions, t);
  }

  lemma LeadsOn(s: State, m: State, t: State, c: ClientId)
    requires Leads(s, m, c) && Leads(m, t, c)
    ensures Leads(s, t, c)
  {
    hide Path;
    var a :| Path(s, a, m) && Client(c, DropLock) !in a;
    var b :| Path(m, b, t) && Client(c, DropLock) !in b;
    PathSum(s, a, m, b, t);
  }

  lemma LeadsReaches(s: State, t: State, c: ClientId)
    requires Reachable(s) && Leads(s, t, c)
    ensures Reachable(t)
  {
    hide Path, Reachable;
    var actions :| Path(s, actions, t) && Client(c, DropLock) !in actions;
    PathReaches(s, actions, t);
  }

  /** The call that c is executing can still get an answer. */
  ghost predicate CanBeAnswered(s: State, c: ClientId) {
    exists t :: Leads(s, t, c) && t.lock == Some(c) && FateOf(t).Won?
  }

  // The writer can suspend.

  predicate SameReader(s: State, t: State) {
    t.rpc == s.rpc && t.rxbuf == s.rxbuf && t.rxlength == s.rxlength
  }

  /** A client on its way to suspension leaves the reader alone, but for letting it park. */
  lemma StepToSuspension(s: State)
    requires Mutex(s) && References(s) && Conservation(s) && s.lock.Some?
    requires BeforeReply(Holder(s)) && !Holder(s).Suspended?
    ensures Enabled(s, Helpful(s)) && Helpful(s) != Client(s.lock.value, DropLock)
    ensures var t := Step(s, Helpful(s));
            && t.lock == s.lock && BeforeReply(Holder(t)) && Holder(t).op == Holder(s).op && Rank(t) < Rank(s)
            && (if FrameDone(s.rpc) then FrameDone(t.rpc) else SameReader(s, t))
            && (s.rpc.RParked? ==> t.rpc.RParked?)
            && t.h.returned == s.h.returned && t.h.orphans == s.h.orphans
  {
    HelpfulEnabled(s);
    HelpfulProgress(s);
    match Helpful(s) {
      case Client(c, ca) => HolderMoves(s, c, ca);
      case Reader(ra) => ReaderKeepsHolder(s, ra);
      case _ =>
    }
  }

  lemma {:induction false} CanSuspend(s: State, c: ClientId) returns (t: State)
    requires Reachable(s) && s.lock == Some(c) && BeforeReply(Holder(s))
    ensures Leads(s, t, c) && t.lock == Some(c) && Holder(t) == Suspended(Holder(s).op)
    ensures if FrameDone(s.rpc) then FrameDone(t.rpc) else SameReader(s, t)
    ensures s.rpc.RParked? ==> t.rpc.RParked?
    ensures t.h.returned == s.h.returned && t.h.orphans == s.h.orphans
    decreases Rank(s)
  {
    hide Leads, Reachable, Rank, Helpful;
    if Holder(s).Suspended? {
      StaysThere(s, c);
      t := s;
    } else {
      assert Mutex(s) && References(s) && Conservation(s) by { ReachableInv(s); }
      var a := Helpful(s);
      StepToSuspension(s);
      ReachableStep(s, a);
      t := CanSuspend(Step(s, a), c);
      GoesThrough(s, a, t, c);
    }
  }

  // The reader can complete a frame.

  predicate SameClients(s: State, t: State) {
    && t.pcs == s.pcs && t.lock == s.lock && t.writer == s.writer
    && t.h.returned == s.h.returned && t.h.orphans == s.h.orphans
  }

  lemma {:induction false} CanFeed(s: State, q: seq<char>, c: ClientId) returns (t: State)
    requires s.rpc.RDraining? && BufferShape(s) && s.rxlength + |q| < RXBUF_SIZE
    ensures Leads(s, t, c) && SameClients(s, t) && t.rpc.RDraining? && BufferShape(t)
    ensures Received(t) == Received(s) + q && t.rxlength == s.rxlength + |q|
    ensures t.h.received == s.h.received + q
    decreases |q|
  {
    hide Leads;
    if q == [] {
      StaysThere(s, c);
      t := s;
      assert Received(s) + q == Received(s) && s.h.received + q == s.h.received;
    } else {
      var s1 := Step(s, Reader(Byte(q[0])));
      assert Received(s1) == Received(s) + [q[0]];
      t := CanFeed(s1, q[1..], c);
      GoesThrough(s, Reader(Byte(q[0])), t, c);
      assert Received(s) + [q[0]] + q[1..] == Received(s) + q;
      assert s.h.received + [q[0]] + q[1..] == s.h.received + q;
    }
  }

  /** A check of complete bytes. */
  lemma CheckAccepts(s: State, c: ClientId) returns (t: State)
    requires s.rpc.RChecking? && BufferShape(s) && Recognised(Classify(CStr(Received(s))))
    ensures Leads(s, t, c) && SameClients(s, t) && t.rpc.RAccepting?
  {
    hide Leads, CStr, Classify;
    CStrPadded(s.rxbuf, s.rxlength);
    t := Step(s, Reader(Check));
    StaysThere(t, c);
    GoesThrough(s, Reader(Check), t, c);
  }

  lemma DrainingCompletes(s: State, c: ClientId) returns (t: State)
    requires s.rpc.RDraining? && BufferShape(s) && Completable(Received(s))
    ensures Leads(s, t, c) && SameClients(s, t) && t.rpc.RAccepting?
  {
    hide Leads, CStr, Classify;
    var q :| Completes(Received(s), q);
    var s1 := CanFeed(s, q, c);
    var s2 := Step(s1, Reader(Drained));
    t := CheckAccepts(s2, c);
    GoesThrough(s1, Reader(Drained), t, c);
    LeadsOn(s, s1, t, c);
  }

  lemma WaitingCompletes(s: State, c: ClientId) returns (t: State)
    requires s.rpc.RWaiting? && BufferShape(s) && Completable(Received(s))
    ensures Leads(s, t, c) && SameClients(s, t) && t.rpc.RAccepting?
  {
    hide Leads, Completable;
    t := DrainingCompletes(Step(s, Reader(Input)), c);
    GoesThrough(s, Reader(Input), t, c);
  }

  lemma CheckingCompletes(s: State, c: ClientId) returns (t: State)
    requires s.rpc.RChecking? && BufferShape(s) && Completable(Received(s))
    ensures Leads(s, t, c) && SameClients(s, t) && t.rpc.RAccepting?
  {
    hide Leads, Completable, CStr, Classify;
    var s1 := Step(s, Reader(Check));
    if s1.rpc.RAccepting? {
      t := s1;
      StaysThere(t, c);
    } else {
      t := WaitingCompletes(s1, c);
    }
    GoesThrough(s, Reader(Check), t, c);
  }

  lemma ClearingCompletes(s: State, c: ClientId) returns (t: State)
    requires s.rpc.RClearing?
    ensures Leads(s, t, c) && SameClients(s, t) && t.rpc.RAccepting?
  {
    hide Leads, Completable;
    var s1 := Step(s, Reader(Clear));
    assert Received(s1) == [];
    PlainTextCompletable([]);
    t := CheckingCompletes(s1, c);
    GoesThrough(s, Reader(Clear), t, c);
  }

  lemma IdleCompletes(s: State, c: ClientId) returns (t: State)
    requires s.rpc.RWantRx? && s.rxlock.Free?
    ensures Leads(s, t, c) && SameClients(s, t) && t.rpc.RAccepting?
  {
    hide Leads;
    t := ClearingCompletes(Step(s, Reader(LockRx)), c);
    GoesThrough(s, Reader(LockRx), t, c);
  }

  /** A reader that can answer can complete a frame while all clients stand still. */
  lemma CanComplete(s: State, c: ClientId) returns (t: State)
    requires References(s) && BufferShape(s) && ReaderCanAnswer(s) && !s.rxlock.ByClient?
    ensures Leads(s, t, c) && SameClients(s, t) && t.rpc.RAccepting?
  {
    hide Leads, Completable, BufferShape;
    match s.rpc {
      case RAccepting => t := s; StaysThere(s, c);
      case RChecking => t := CheckingCompletes(s, c);
      case RWaiting => t := WaitingCompletes(s, c);
      case RDraining => t := DrainingCompletes(s, c);
      case RClearing => t := ClearingCompletes(s, c);
      case RWantRx => t := IdleCompletes(s, c);
      case RWoken =>
        t := IdleCompletes(Step(s, Reader(Unpark)), c);
        GoesThrough(s, Reader(Unpark), t, c);
    }
  }

  lemma CanAnswer(s: State, c: ClientId)
    requires Reachable(s) && s.lock == Some(c) && BeforeReply(Holder(s)) && ReaderCanAnswer(s)
    ensures CanBeAnswered(s, c)
  {
    hide Leads, Reachable, Completable;
    var s1 := CanSuspend(s, c);
    LeadsReaches(s, s1, c);
    assert Mutex(s1) && References(s1) && BufferShape(s1) by {
      ReachableInv(s1);
      assert Stream(s1);
    }
    var s2 := CanComplete(s1, c);
    LeadsOn(s, s1, s2, c);
    LeadsReaches(s, s2, c);
    assert Mutex(s2) && References(s2) by { ReachableInv(s2); }
    assert BufferShape(s2) by {
      ReachableInv(s2);
      assert Stream(s2);
    }
    var t := Step(s2, Reader(Accept));
    WaitStep(s2, Reader(Accept));
    StaysThere(t, c);
    GoesThrough(s2, Reader(Accept), t, c);
    LeadsOn(s, s2, t, c);
  }

  lemma {:induction false} HopelessPath(s: State, actions: seq<Action>, t: State, c: ClientId)
    requires Reachable(s) && s.lock == Some(c) && Hopeless(s)
    requires Path(s, actions, t) && Client(c, DropLock) !in actions
    ensures t.lock == Some(c) && Hopeless(t)
    decreases |actions|
  {
    hide Reachable, Hopeless;
    if actions != [] {
      assert Mutex(s) && References(s) && Stream(s) && Outcomes(s) by { ReachableInv(s); }
      hide Mutex, References, Stream, Outcomes;
      ReachableStep(s, actions[0]);
      HopelessKept(s, actions[0]);
      HopelessPath(Step(s, actions[0]), actions[1..], t, c);
    }
  }

  /**
   * The exact condition: a call that has still to wait can get an answer if and only if the reader is neither
   * saving nor parked, and not deaf.  With no NUL received and room for a line left, that is the state of the
   * reader alone, which `simp->reader` shows once it is parked.
   */
  lemma AnswerableExactly(s: State, c: ClientId)
    requires Reachable(s) && s.lock == Some(c) && BeforeReply(Holder(s))
    ensures CanBeAnswered(s, c) <==> ReaderCanAnswer(s)
    ensures ReaderCanAnswer(s) <==> !Hopeless(s)
    ensures (ReaderInLoop(s.rpc) ==> NUL !in Received(s) && |Received(s)| + 8 < RXBUF_SIZE)
            ==> (CanBeAnswered(s, c) <==> !FrameDone(s.rpc))
  {
    hide Leads, Reachable, Completable;
    if ReaderCanAnswer(s) {
      CanAnswer(s, c);
    } else if t :| Leads(s, t, c) && t.lock == Some(c) && FateOf(t).Won? {
      HopelessLeads(s, t, c);
    }
    if NUL !in Received(s) && |Received(s)| + 8 < RXBUF_SIZE {
      PlainTextCompletable(Received(s));
    }
  }

  lemma HopelessLeads(s: State, t: State, c: ClientId)
    requires Reachable(s) && s.lock == Some(c) && Hopeless(s) && Leads(s, t, c)
    ensures Hopeless(t)
  {
    hide Reachable, Hopeless, Path;
    var actions :| Path(s, actions, t) && Client(c, DropLock) !in actions;
    HopelessPath(s, actions, t, c);
  }

  // In fair behaviours.

  /** A run continued along a path that does not end c's call. */
  lemma {:induction false} RunFollows(
    states: seq<State>, actions: seq<Action>, path: seq<Action>, t: State, c: ClientId)
    returns (states': seq<State>, actions': seq<Action>)
    requires IsRun(states, actions) && Path(states[|actions|], path, t)
    requires states[|actions|].lock == Some(c) && Client(c, DropLock) !in path
    ensures IsRun(states', actions') && states <= states' && actions <= actions' && states'[|actions'|] == t
    ensures |states'| == |actions'| + 1 && forall k :: |actions| <= k <= |actions'| ==> states'[k].lock == Some(c)
    decreases |path|
  {
    if path == [] {
      return states, actions;
    }
    hide IsRun;
    var s, a := states[|actions|], path[0];
    LockKept(states, actions, a, c);
    RunGrows(states, actions, a);
    states', actions' := RunFollows(states + [Step(s, a)], actions + [a], path[1..], t, c);
  }

  lemma LockKept(states: seq<State>, actions: seq<Action>, a: Action, c: ClientId)
    requires IsRun(states, actions) && states[|actions|].lock == Some(c)
    requires Enabled(states[|actions|], a) && a != Client(c, DropLock)
    ensures Step(states[|actions|], a).lock == Some(c)
  {
    var s := states[|actions|];
    assert Mutex(s) && References(s) && Outcomes(s) by { RunInv(states, actions, |actions|); }
    Harmless(s, a);
  }

  /** Some fair behaviour passes through s, and the call that c is executing there returns an answer. */
  ghost predicate AnsweredInSomeBehaviour(s: State, c: ClientId) {
    exists run: nat -> State, act: nat -> Action, i: nat, outcome ::
      && Behaviour(run, act) && Fair(run, act) && MutexFair(run, act) && ReaderFair(run, act) && run(i) == s
      && ReturnsWith(run, act, i, c, CurrentOp(s), outcome) && outcome.Answered?
  }

  /** A call won at step n, seen from an earlier step of the same call. */
  lemma WonSince(run: nat -> State, act: nat -> Action, i: nat, n: nat, c: ClientId) returns (outcome: Outcome)
    requires Behaviour(run, act) && Fair(run, act) && i <= n && FateOf(run(n)).Won?
    requires forall k :: i <= k <= n ==> run(k).lock == Some(c)
    ensures ReturnsWith(run, act, i, c, CurrentOp(run(i)), outcome) && outcome.Answered?
  {
    hide FateOf, CurrentOp, Behaviour, Fair, EndsWith, Due;
    outcome := FateComesTrue(run, act, n, c);
    OpLasts(run, act, i, n, c);
    var op := CurrentOp(run(i));
    var j: nat :| n <= j && EndsWith(run, act, n, j, c, op, outcome);
    forall k | i <= k < n ensures act(k) != Client(c, DropLock) {
      DropLockReleases(run, act, k, c);
      assert run(k + 1).lock == Some(c);
    }
    ReturnsSince(run, act, i, n, j, c, op, outcome);
  }

  lemma PathToAnswer(
    states: seq<State>, actions: seq<Action>, s: State, path: seq<Action>, t: State, c: ClientId)
    requires IsRun(states, actions) && s == states[|actions|] && Path(s, path, t)
    requires s.lock == Some(c) && Client(c, DropLock) !in path
    requires t.lock == Some(c) && FateOf(t).Won?
    ensures AnsweredInSomeBehaviour(s, c)
  {
    hide FateOf, CurrentOp, IsRun, Path, Behaviour, Fair, MutexFair, ReaderFair, ReturnsWith;
    RunLength(states, actions);
    var states', actions' := RunFollows(states, actions, path, t, c);
    EveryRunExtends(states', actions');
    var run: nat -> State, act: nat -> Action :|
      && Behaviour(run, act) && Fair(run, act) && MutexFair(run, act) && ReaderFair(run, act)
      && Begins(states', actions', run, act);
    assert run(|actions|) == s;
    var _ := WonSince(run, act, |actions|, |actions'|, c);
  }

  lemma RunLength(states: seq<State>, actions: seq<Action>)
    requires IsRun(states, actions)
    ensures |states| == |actions| + 1
  {
  }

  /**
   * The same condition for whole behaviours: with it some fair behaviour gives the call its answer, without it
   * every fair behaviour lets the call time out.
   */
  lemma AnsweredIfPossible(s: State, c: ClientId)
    requires Reachable(s) && s.lock == Some(c) && BeforeReply(Holder(s))
    ensures AnsweredInSomeBehaviour(s, c) <==> ReaderCanAnswer(s)
  {
    hide Path, FateOf, Completable, EndsWith, Behaviour, Fair, MutexFair, ReaderFair;
    AnswerableExactly(s, c);
    if ReaderCanAnswer(s) {
      var t :| Leads(s, t, c) && t.lock == Some(c) && FateOf(t).Won?;
      var path :| Path(s, path, t) && Client(c, DropLock) !in path;
      var states, actions :| IsRun(states, actions) && s == states[|actions|];
      PathToAnswer(states, actions, s, path, t, c);
    } else if AnsweredInSomeBehaviour(s, c) {
      var run: nat -> State, act: nat -> Action, i: nat, outcome :|
        && Behaviour(run, act) && Fair(run, act) && MutexFair(run, act) && ReaderFair(run, act) && run(i) == s
        && ReturnsWith(run, act, i, c, CurrentOp(s), outcome) && outcome.Answered?;
      HopelessCallTimesOut(run, act, i, c);
      OneOutcome(run, act, i, c, CurrentOp(s), outcome, TimedOut);
    }
  }

  /** A call returns once. */
  lemma OneOutcome(run: nat -> State, act: nat -> Action, i: nat, c: ClientId, op: Op, a: Outcome, b: Outcome)
    requires ReturnsWith(run, act, i, c, op, a) && ReturnsWith(run, act, i, c, op, b)
    ensures a == b
  {
    var j: nat :| i <= j && EndsWith(run, act, i, j, c, op, a);
    var k: nat :| i <= k && EndsWith(run, act, i, k, c, op, b);
    assert j == k;
    var r := run(j).h.returned;
    assert (r + [Return(c, op, a)])[|r|] == (r + [Return(c, op, b)])[|r|];
  }

  /** A deaf reader is deaf for good: no frame is ever completed again. */
  lemma {:induction false} DeafForGood(run: nat -> State, act: nat -> Action, i: nat, j: nat)
    requires Behaviour(run, act) && i <= j && Deaf(run(i))
    ensures Deaf(run(j)) && act(j) != Reader(Accept)
    decreases j
  {
    hide Deaf;
    if i < j {
      DeafForGood(run, act, i, j - 1);
      DeafAt(run, act, j - 1);
    }
    DeafAt(run, act, j);
  }

  lemma DeafAt(run: nat -> State, act: nat -> Action, i: nat)
    requires Behaviour(run, act) && Deaf(run(i))
    ensures Deaf(run(i + 1)) && act(i) != Reader(Accept)
  {
    hide Deaf;
    var s := run(i);
    assert Mutex(s) && References(s) && Stream(s) by {
      BehaviourReaches(run, act, i);
      ReachableInv(s);
    }
    hide Mutex, References, Stream;
    assert Enabled(s, act(i)) && run(i + 1) == Step(s, act(i)) by { assert JustifiedAt(run, act, i); }
    DeafKept(s, act(i));
  }

  // Both cases do happen.

  lemma Entering(s: State, op: Op) returns (t: State)
    requires Reachable(s) && s.lock.None? && 0 in s.pcs && s.pcs[0].Idle? && !op.TogglePower?
    ensures Reachable(t) && t.lock == Some(0) && Holder(t) == AtSync(op) && SameReader(s, t)
    ensures t.h.returned == s.h.returned && t.h.orphans == s.h.orphans
  {
    hide Reachable;
    var a, b := Client(0, Call(op)), Client(0, TakeLock);
    ReachableStep(s, a);
    ReachableStep(Step(s, a), b);
    t := Step(Step(s, a), b);
  }

  /** Some command is answered. */
  lemma SomeCallIsAnswered(request: string)
    ensures exists s :: Reachable(s) && s.lock == Some(0) && CurrentOp(s) == Execute(request)
                        && AnsweredInSomeBehaviour(s, 0)
  {
    hide Reachable;
    InitReachable(Start());
    var s := Entering(Start(), Execute(request));
    AnsweredIfPossible(s, 0);
  }

  /** A writer can be suspended while a complete frame waits: then its call, answered in time or not, times out. */
  lemma EarlyFrameHappens(request: string)
    ensures exists s ::
              Reachable(s) && s.lock == Some(0) && Holder(s) == Suspended(Execute(request)) && FrameDone(s.rpc)
  {
    hide Reachable, Leads;
    InitReachable(Start());
    var r := CanComplete(Start(), 0);
    LeadsReaches(Start(), r, 0);
    ReachableStep(r, Reader(Accept));
    var s := Entering(Step(r, Reader(Accept)), Execute(request));
    var t := CanSuspend(s, 0);
    LeadsReaches(s, t, 0);
  }

  /** Such a call is part of some fair behaviour. */
  lemma SomeCallTimesOut(request: string)
    ensures exists run: nat -> State, act: nat -> Action, i: nat ::
              && Behaviour(run, act) && Fair(run, act) && MutexFair(run, act) && ReaderFair(run, act)
              && run(i).lock == Some(0) && Holder(run(i)).Suspended?
              && ReturnsWith(run, act, i, 0, Execute(request), TimedOut)
  {
    EarlyFrameHappens(request);
    var s :| Reachable(s) && s.lock == Some(0) && Holder(s) == Suspended(Execute(request)) && FrameDone(s.rpc);
    var states, actions :| IsRun(states, actions) && s == states[|actions|];
    EveryRunExtends(states, actions);
    var run: nat -> State, act: nat -> Action :|
      && Behaviour(run, act) && Fair(run, act) && MutexFair(run, act) && ReaderFair(run, act)
      && Begins(states, actions, run, act);
    EarlyFrameDoomsCall(run, act, |actions|, 0);
  }
}
