/** What the rest of the system can do to a call between two steps of its own. */
module Sim8xxCalls {
  import opened CStrings
  import opened Options
  import opened ResultCodes
  import opened Sim8xxProtocol
  import opened Sim8xxSafety
  import opened Sim8xxLiveness

  /** The frames handed to client c. */
  function To(c: ClientId, handed: seq<Delivery>): seq<Delivery> {
    if handed == [] then []
    else
      var last := handed[|handed| - 1];
      To(c, handed[..|handed| - 1]) + (if last.client == c then [last] else [])
  }

  lemma ToGrows(c: ClientId, handed: seq<Delivery>, d: Delivery)
    ensures To(c, handed + [d]) == To(c, handed) + (if d.client == c then [d] else [])
  {
    assert (handed + [d])[..|handed + [d]| - 1] == handed;
  }

  /** A step that client c does not take itself; the kernel ends its waits. */
  predicate Other(c: ClientId, a: Action) {
    a.Client? && a.c == c ==> a.ca.WriterTimeout?
  }

  /** The history of t continues that of s. */
  predicate Later(s: State, t: State) {
    s.h.frames <= t.h.frames && s.h.sent <= t.h.sent && s.h.toggles <= t.h.toggles
  }

  /** A step, if it can be taken. */
  function Do(s: State, a: Action): State {
    if Enabled(s, a) then Step(s, a) else s
  }

  /** Of some steps, in their order, the other parties take those that can be taken. */
  function Taken(s: State, c: ClientId, steps: seq<Action>): State {
    if steps == [] then s
    else
      var m, a := Taken(s, c, steps[..|steps| - 1]), steps[|steps| - 1];
      if Other(c, a) then Do(m, a) else m
  }

  /** From state to state those of some steps are taken, one after the other, that the others can take. */
  ghost predicate Tries(states: seq<State>, c: ClientId, steps: seq<Action>) {
    && |states| == |steps| + 1
    && forall i :: 0 <= i < |steps| ==> Tried(states[i], c, steps[i], states[i + 1])
  }

  predicate Tried(s: State, c: ClientId, a: Action, t: State) {
    t == if Other(c, a) && Enabled(s, a) then Step(s, a) else s
  }

  /** Every step that can be taken is taken, in order. */
  lemma {:induction false} OthersTakeAll(states: seq<State>, c: ClientId, steps: seq<Action>, k: nat)
    requires Tries(states, c, steps) && k <= |steps|
    ensures Taken(states[0], c, steps[..k]) == states[k]
  {
    hide Step, Enabled;
    if k > 0 {
      OthersTakeAll(states, c, steps, k - 1);
      assert Tried(states[k - 1], c, steps[k - 1], states[k]);
      assert steps[..k][..k - 1] == steps[..k - 1];
    }
  }

  /** A path of the other parties' steps is taken to its end. */
  lemma {:induction false} PathTaken(s: State, c: ClientId, actions: seq<Action>, t: State)
    requires Path(s, actions, t) && forall a :: a in actions ==> Other(c, a)
    ensures Taken(s, c, actions) == t
    decreases |actions|
  {
    hide Step, Enabled;
    if actions != [] {
      var a, rest := actions[0], actions[1..];
      PathTaken(Step(s, a), c, rest, t);
      TakenSum(s, c, [a], rest);
      assert [a] + rest == actions && [a][..0] == [];
    }
  }

  lemma {:induction false} TakenSum(s: State, c: ClientId, a: seq<Action>, b: seq<Action>)
    ensures Taken(s, c, a + b) == Taken(Taken(s, c, a), c, b)
    decreases |b|
  {
    hide Step, Enabled;
    if b == [] {
      assert a + b == a;
    } else {
      var n := |b| - 1;
      TakenSum(s, c, a, b[..n]);
      assert (a + b)[..|a + b| - 1] == a + b[..n] && (a + b)[|a + b| - 1] == b[n];
    }
  }

  // The course of a call, in terms of its own steps and those of the other parties in between.

  /** Client c cannot go on by itself. */
  predicate Blocked(s: State, c: ClientId) {
    && c in s.pcs
    && var pc := s.pcs[c];
       (pc.WantLock? && s.lock.Some?) || (pc.AtSync? && s.sync == 0) || (pc.WantRx? && !s.rxlock.Free?)
  }

  /** While client c is blocked, up to n times the step is taken that the holder of `lock` waits for. */
  function Helped(s: State, c: ClientId, n: nat): State {
    if n == 0 then s
    else
      var m := Helped(s, c, n - 1);
      if Blocked(m, c) && m.lock.Some? then Do(m, Helpful(m)) else m
  }

  /** Client c has been helped to go on. */
  ghost predicate Unblocked(s: State, c: ClientId, t: State) {
    !Blocked(t, c) && exists n :: t == Helped(s, c, n)
  }

  /** From a call to its place inside. */
  ghost predicate Entered(s: State, c: ClientId, op: Op, steps: seq<Action>, t: State) {
    exists free :: && Unblocked(Taken(Do(s, Client(c, Call(op))), c, steps), c, free)
                   && t == Do(free, Client(c, TakeLock))
  }

  /** From there until the request is out. */
  ghost predicate Requested(s: State, c: ClientId, before: seq<Action>, between: seq<Action>, t: State) {
    exists granted :: && Unblocked(Taken(s, c, before), c, granted)
                      && t == Do(Taken(Do(granted, Client(c, TakeSync)), c, between), Client(c, Transmit))
  }

  /** From the call to the suspension. */
  ghost predicate Asked(s: State, c: ClientId, op: Op, schedule: nat -> seq<Action>, t: State) {
    exists inside, sent ::
      && Entered(s, c, op, schedule(0), inside)
      && Requested(inside, c, schedule(1), schedule(2), sent)
      && t == Do(Taken(sent, c, schedule(3)), Client(c, Suspend))
  }

  /** The end of the wait: by a frame, if the others' steps bring one, or else by the timeout. */
  function Waited(s: State, c: ClientId, steps: seq<Action>): State {
    Do(Taken(s, c, steps), Client(c, WriterTimeout))
  }

  /** From the wake-up until the buffer mutex is taken. */
  ghost predicate TookBuffer(s: State, c: ClientId, before: seq<Action>, during: seq<Action>, t: State) {
    exists free :: && Unblocked(Taken(Do(s, Client(c, ClearWriter)), c, before), c, free)
                   && t == Taken(Do(free, Client(c, TakeRx)), c, during)
  }

  /** From there until it is released. */
  function UsedBuffer(s: State, c: ClientId, after: seq<Action>): State {
    Do(Taken(Do(s, Client(c, CopyResponse)), c, after), Client(c, DropRx))
  }

  /** After a timeout. */
  function GaveUp(s: State, c: ClientId, steps: seq<Action>): State {
    Do(Taken(Do(s, Client(c, ClearWriter)), c, steps), Client(c, GiveBack))
  }

  /** From the end of the wait to the test of the reader. */
  ghost predicate Handled(s: State, c: ClientId, schedule: nat -> seq<Action>, t: State) {
    if c in s.pcs && s.pcs[c].Woken? && s.pcs[c].ok
    then exists m :: TookBuffer(s, c, schedule(5), schedule(6), m) && t == UsedBuffer(m, c, schedule(7))
    else t == GaveUp(s, c, schedule(5))
  }

  /** The test of the reader, and what follows from it. */
  function Tested(s: State, c: ClientId, before: seq<Action>, between: seq<Action>): State {
    Do(Taken(Do(Taken(s, c, before), Client(c, TestReader)), c, between), Client(c, ResumeReader))
  }

  function Left(s: State, c: ClientId, before: seq<Action>, between: seq<Action>, after: seq<Action>): State {
    Do(Taken(Tested(s, c, before, between), c, after), Client(c, DropLock))
  }

  /** A power toggle, from its place inside to its return. */
  function Powered(s: State, c: ClientId, before: seq<Action>, after: seq<Action>): State {
    Do(Taken(Do(Taken(s, c, before), Client(c, PowerDone)), c, after), Client(c, DropLock))
  }

  /** A whole call, with the states at the beginning of its wait and before its test of the reader. */
  ghost predicate CallRuns(
    s: State, c: ClientId, op: Op, schedule: nat -> seq<Action>, waiting: State, leaving: State, t: State)
  {
    && Asked(s, c, op, schedule, waiting)
    && Handled(Waited(waiting, c, schedule(4)), c, schedule, leaving)
    && t == Left(leaving, c, schedule(8), schedule(9), schedule(10))
  }

  /** Between s and t nothing has been handed to client c. */
  predicate Quiet(c: ClientId, s: State, t: State) {
    Later(s, t) && To(c, t.h.handed) == To(c, s.h.handed)
  }

  /** Between s and t one frame, and that is still in the buffer, has been handed to client c. */
  predicate HandedOver(c: ClientId, s: State, t: State) {
    && Later(s, t) && s.h.frames < t.h.frames
    && To(c, t.h.handed) == To(c, s.h.handed) + [Delivery(c, LastFrame(t.h), CStr(t.rxbuf))]
  }

  /** What the other parties' steps leave to client c. */
  predicate Kept(c: ClientId, s: State, t: State) {
    && c in s.pcs && c in t.pcs
    && (s.lock == Some(c) ==> t.lock == Some(c) && t.h.sent == s.h.sent)
    && (PickupDue(s.pcs[c]) ==> t.rxbuf == s.rxbuf && t.h.frames == s.h.frames)
    && if s.pcs[c].Suspended? && t.pcs[c] == Woken(s.pcs[c].op, true) then HandedOver(c, s, t)
       else Quiet(c, s, t) && (t.pcs[c] == s.pcs[c] || (s.pcs[c].Suspended? && t.pcs[c] == Woken(s.pcs[c].op, false)))
  }

  lemma KeptItself(c: ClientId, s: State)
    requires c in s.pcs
    ensures Kept(c, s, s)
  {
  }

  lemma KeptTrans(c: ClientId, s: State, m: State, t: State)
    requires Kept(c, s, m) && Kept(c, m, t)
    ensures Kept(c, s, t)
  {
    hide To, CStr;
  }

  lemma ClientKept(s: State, c: ClientId, b: ClientId, a: ClientAction)
    requires Mutex(s) && References(s) && c in s.pcs && ClientEnabled(s, b, a) && Other(c, Client(b, a))
    ensures Kept(c, s, ClientStep(s, b, a))
  {
    hide To, CStr, Classify;
  }

  lemma ReaderKept(s: State, c: ClientId, a: ReaderAction)
    requires Mutex(s) && References(s) && c in s.pcs && ReaderEnabled(s, a)
    ensures Kept(c, s, ReaderStep(s, a))
  {
    hide CStr, Classify, To;
    if a.Accept? && s.writer.Some? {
      ToGrows(c, s.h.handed, Delivery(s.writer.value, |s.h.frames|, CStr(s.rxbuf)));
    }
  }

  lemma StepKept(s: State, c: ClientId, a: Action)
    requires Mutex(s) && References(s) && c in s.pcs && Enabled(s, a) && Other(c, a)
    ensures Kept(c, s, Step(s, a))
  {
    match a {
      case Client(b, ca) => ClientKept(s, c, b, ca);
      case Reader(ra) => ReaderKept(s, c, ra);
      case _ =>
    }
  }

  lemma QuietTrans(c: ClientId, s: State, m: State, t: State)
    requires Quiet(c, s, m) && Quiet(c, m, t)
    ensures Quiet(c, s, t)
  {
  }

  /** A client outside that waits for `lock` waits for others, who get on with it. */
  lemma LockAwaited(s: State, c: ClientId)
    requires Inv(s) && s.lock.Some? && c in s.pcs && s.pcs[c].WantLock?
    ensures Enabled(s, Helpful(s)) && Other(c, Helpful(s))
    ensures var t := Step(s, Helpful(s)); t.lock.None? || (t.lock.Some? && Rank(t) < Rank(s))
  {
    hide Rank, References, Stream, Verdicts, HandOff, Numbered, Ledger, LastSent;
    HelpfulEnabled(s);
    HelpfulProgress(s);
    Harmless(s, Helpful(s));
  }

  /** A client that waits for a token or for the buffer waits for the reader or the timer. */
  lemma ReleaseAwaited(s: State, c: ClientId)
    requires Inv(s) && s.lock == Some(c)
    requires (s.pcs[c].AtSync? && s.sync == 0) || (s.pcs[c].WantRx? && !s.rxlock.Free?)
    ensures Helpful(s) == (if s.rpc.RSaving? then Reader(Park) else TimerFire) && Enabled(s, Helpful(s))
    ensures Rank(Step(s, Helpful(s))) < Rank(s)
    ensures s.pcs[c].WantRx? ==> s.rpc.RSaving?
  {
    hide Rank, Stream, Verdicts, HandOff, Numbered, Ledger, Outcomes, LastSent;
    HelpfulEnabled(s);
    HelpfulProgress(s);
  }

  /** Client c is inside, suspended in a call with this operation. */
  predicate IsWaiting(c: ClientId, s: State, op: Op) {
    s.lock == Some(c) && c in s.pcs && s.pcs[c] == Suspended(op)
  }

  /** Between s and t this text has been sent. */
  predicate Transmitted(s: State, t: State, text: string) {
    s.h.sent <= t.h.sent && text in t.h.sent[|s.h.sent|..]
  }

  lemma TransmittedThen(s: State, m: State, n: State, t: State, text: string)
    requires s.h.sent <= m.h.sent && n.h.sent == m.h.sent + [text] && n.h.sent <= t.h.sent
    ensures Transmitted(s, t, text)
  {
    assert t.h.sent[|m.h.sent|] == text;
    assert t.h.sent[|s.h.sent|..][|m.h.sent| - |s.h.sent|] == text;
  }

  /** Between s and t client c has got one response: the text of a frame completed in between. */
  ghost predicate GotResponse(c: ClientId, s: State, t: State, text: string) {
    exists n :: |s.h.frames| <= n < |t.h.frames| && CStr(t.h.frames[n].bytes) == text
                && To(c, t.h.handed) == To(c, s.h.handed) + [Delivery(c, n, text)]
  }

  /** A frame that has been handed over is the last one, and the buffer holds it. */
  lemma HandedOverIsResponse(c: ClientId, s: State, m: State, t: State)
    requires Reachable(m) && m.lock == Some(c) && PickupDue(Holder(m))
    requires HandedOver(c, s, m) && Quiet(c, m, t)
    ensures GotResponse(c, s, t, CStr(m.rxbuf))
  {
    hide CStr, To;
    assert References(m) by { ReachableInv(m); }
    BufferHoldsFrame(m);
    assert t.h.frames[LastFrame(m.h)] == m.h.frames[LastFrame(m.h)];
  }

  /** A call that got a response got this one only. */
  lemma OneResponse(c: ClientId, s: State, t: State, a: string, b: string)
    requires GotResponse(c, s, t, a)
    ensures !Quiet(c, s, t) && (GotResponse(c, s, t, b) ==> a == b)
  {
    hide CStr, To;
    var n :| |s.h.frames| <= n < |t.h.frames| && CStr(t.h.frames[n].bytes) == a
             && To(c, t.h.handed) == To(c, s.h.handed) + [Delivery(c, n, a)];
    assert |To(c, t.h.handed)| == |To(c, s.h.handed)| + 1;
    assert To(c, t.h.handed)[|To(c, s.h.handed)|] == Delivery(c, n, a);
  }

  // The reader, at the end of a call.

  /** Since there were n frames the reader has been listening, or has completed another one. */
  predicate Reopened(s: State, n: nat) {
    |s.h.frames| >= n && (FrameDone(s.rpc) ==> |s.h.frames| > n)
  }

  lemma ClientReopened(s: State, c: ClientId, a: ClientAction, n: nat)
    requires Reopened(s, n) && ClientEnabled(s, c, a)
    ensures Reopened(ClientStep(s, c, a), n)
  {
    hide CStr, Classify;
  }

  lemma ReaderReopened(s: State, a: ReaderAction, n: nat)
    requires Reopened(s, n) && ReaderEnabled(s, a)
    ensures Reopened(ReaderStep(s, a), n)
  {
    hide CStr, Classify, Wake;
  }

  lemma StepReopened(s: State, a: Action, n: nat)
    requires Reopened(s, n) && Enabled(s, a)
    ensures Reopened(Step(s, a), n)
  {
    hide ClientStep, ReaderStep;
    match a {
      case Client(c, ca) => ClientReopened(s, c, ca, n);
      case Reader(ra) => ReaderReopened(s, ra, n);
      case _ =>
    }
  }

  lemma {:induction false} TakenReopened(s: State, c: ClientId, steps: seq<Action>, n: nat)
    requires Reopened(s, n)
    ensures Reopened(Taken(s, c, steps), n)
    decreases |steps|
  {
    hide Reopened, Step, Enabled;
    if steps != [] {
      var m, a := Taken(s, c, steps[..|steps| - 1]), steps[|steps| - 1];
      TakenReopened(s, c, steps[..|steps| - 1], n);
      if Enabled(m, a) {
        StepReopened(m, a, n);
      }
    }
  }

  lemma {:induction false} TakenKept(s: State, c: ClientId, steps: seq<Action>)
    requires Reachable(s) && c in s.pcs
    ensures Reachable(Taken(s, c, steps)) && Kept(c, s, Taken(s, c, steps))
    decreases |steps|
  {
    hide Kept, Step, Reachable, Mutex, References;
    KeptItself(c, s);
    if steps != [] {
      var m, a := Taken(s, c, steps[..|steps| - 1]), steps[|steps| - 1];
      TakenKept(s, c, steps[..|steps| - 1]);
      if Other(c, a) && Enabled(m, a) {
        TakenStep(s, c, m, a);
      }
    }
  }

  lemma TakenStep(s: State, c: ClientId, m: State, a: Action)
    requires Reachable(m) && Kept(c, s, m) && Other(c, a) && Enabled(m, a)
    ensures Reachable(Step(m, a)) && Kept(c, s, Step(m, a))
  {
    hide Step, Reachable;
    ReachableInv(m);
    ReachableStep(m, a);
    StepKept(m, c, a);
    KeptTrans(c, s, m, Step(m, a));
  }

  /** A reader that the test finds parked is resumed before the call returns, whatever the outcome of the call. */
  lemma LeavingResumes(
    s: State, c: ClientId, before: seq<Action>, between: seq<Action>, after: seq<Action>)
    requires Reachable(s) && s.lock == Some(c) && c in s.pcs && s.pcs[c].Leaving?
    requires Taken(s, c, before).rpc.RParked?
    ensures Reopened(Left(s, c, before, between, after), |Taken(s, c, before).h.frames|)
  {
    hide Taken, Reachable, Inv, CStr, Classify;
    var seen := Taken(s, c, before);
    TakenKept(s, c, before);
    ReachableInv(seen);
    assert References(seen);
    var tested := Step(seen, Client(c, TestReader));
    ReachableStep(seen, Client(c, TestReader));
    var waited := Taken(tested, c, between);
    TakenKept(tested, c, between);
    ReachableInv(waited);
    assert References(waited);
    var resumed := Step(waited, Client(c, ResumeReader));
    TakenReopened(resumed, c, after, |seen.h.frames|);
  }

  /** A parked reader that the call sees at its test is resumed by the time t. */
  predicate ResumesReader(s: State, c: ClientId, before: seq<Action>, t: State) {
    Taken(s, c, before).rpc.RParked? ==> Reopened(t, |Taken(s, c, before).h.frames|)
  }

  lemma LeaveReopens(s: State, c: ClientId, schedule: nat -> seq<Action>)
    requires Reachable(s) && s.lock == Some(c) && c in s.pcs && s.pcs[c].Leaving?
    ensures ResumesReader(s, c, schedule(8), Left(s, c, schedule(8), schedule(9), schedule(10)))
  {
    hide Taken, Reachable, Left, Reopened;
    if Taken(s, c, schedule(8)).rpc.RParked? {
      LeavingResumes(s, c, schedule(8), schedule(9), schedule(10));
    }
  }

  // What the others do in the wait.

  function Bytes(q: seq<char>): seq<Action> {
    seq(|q|, i requires 0 <= i < |q| => Reader(Byte(q[i])))
  }

  /**
   * The steps bring a whole answer to a reader that listens: line break, the name of the code, line break, behind
   * anything but a single byte.
   */
  ghost predicate BringsAnswer(s: State, steps: seq<Action>, code: Status) {
    && Recognised(code)
    && s.rpc.RWaiting? && NUL !in Received(s) && |Received(s)| != 1 && |Received(s)| + |Name(code)| + 4 < RXBUF_SIZE
    && steps == [Reader(Input)] + Bytes(CRLF + Name(code) + CRLF) + [Reader(Drained), Reader(Check), Reader(Accept)]
  }

  lemma TakenNext(s: State, c: ClientId, steps: seq<Action>, a: Action)
    ensures Taken(s, c, steps + [a]) == if Other(c, a) then Do(Taken(s, c, steps), a) else Taken(s, c, steps)
  {
    assert (steps + [a])[..|steps + [a]| - 1] == steps;
  }

  /** What the reader and the buffer are after some bytes; the clients stand still. */
  predicate Fed(s: State, t: State, q: seq<char>) {
    && t.pcs == s.pcs && t.lock == s.lock && t.writer == s.writer && t.rpc.RDraining? && BufferShape(t)
    && t.rxlength == s.rxlength + |q| && Received(t) == Received(s) + q
  }

  lemma {:induction false} BytesTaken(s: State, c: ClientId, q: seq<char>)
    requires s.rpc.RDraining? && BufferShape(s) && s.rxlength + |q| < RXBUF_SIZE
    ensures Fed(s, Taken(s, c, Bytes(q)), q)
    decreases |q|
  {
    if q == [] {
      assert Received(s) + [] == Received(s);
    } else {
      var n := |q| - 1;
      BytesTaken(s, c, q[..n]);
      assert Bytes(q) == Bytes(q[..n]) + [Reader(Byte(q[n]))];
      TakenNext(s, c, Bytes(q[..n]), Reader(Byte(q[n])));
      ByteFed(s, Taken(s, c, Bytes(q[..n])), q[..n], q[n]);
      assert q[..n] + [q[n]] == q;
    }
  }

  lemma ByteFed(s: State, t: State, q: seq<char>, b: char)
    requires Fed(s, t, q) && s.rxlength + |q| + 1 < RXBUF_SIZE
    ensures Enabled(t, Reader(Byte(b))) && Fed(s, Step(t, Reader(Byte(b))), q + [b])
  {
    assert Received(Step(t, Reader(Byte(b)))) == Received(t) + [b];
  }

  lemma ThreeTaken(t: State, c: ClientId, a: ReaderAction, b: ReaderAction, d: ReaderAction)
    ensures Taken(t, c, [Reader(a), Reader(b), Reader(d)]) == Do(Do(Do(t, Reader(a)), Reader(b)), Reader(d))
  {
    hide Taken, Do;
    NothingTaken(t, c);
    TakenNext(t, c, [], Reader(a));
    TakenNext(t, c, [Reader(a)], Reader(b));
    TakenNext(t, c, [Reader(a), Reader(b)], Reader(d));
    assert [] + [Reader(a)] == [Reader(a)] && [Reader(a)] + [Reader(b)] == [Reader(a), Reader(b)];
    assert [Reader(a), Reader(b)] + [Reader(d)] == [Reader(a), Reader(b), Reader(d)];
  }

  /** The end of the batch: the check accepts, and the frame goes to the suspended client. */
  lemma BatchAccepted(t: State, c: ClientId)
    requires References(t) && BufferShape(t) && t.rpc.RDraining?
    requires t.lock == Some(c) && c in t.pcs && t.pcs[c].Suspended? && Recognised(Classify(CStr(Received(t))))
    ensures var u := Taken(t, c, [Reader(Drained), Reader(Check), Reader(Accept)]);
            && c in u.pcs && u.pcs[c] == Woken(t.pcs[c].op, true) && CStr(u.rxbuf) == CStr(Received(t))
  {
    hide CStr, Classify, Taken;
    CStrPadded(t.rxbuf, t.rxlength);
    ThreeTaken(t, c, Drained, Check, Accept);
  }

  /** A whole answer in the wait wakes the client, and is in the buffer then. */
  lemma AnswerWakes(s: State, c: ClientId, op: Op, steps: seq<Action>, code: Status)
    requires Reachable(s) && IsWaiting(c, s, op) && BringsAnswer(s, steps, code)
    ensures var t := Taken(s, c, steps);
            c in t.pcs && t.pcs[c] == Woken(op, true) && Classify(CStr(t.rxbuf)) == code
  {
    hide Taken, CStr, Classify, Reachable, Inv, Bytes, Name, TokenBalance, FrameBalance, WaitBalance;
    var q := CRLF + Name(code) + CRLF;
    var input, rest := [Reader(Input)], [Reader(Drained), Reader(Check), Reader(Accept)];
    WaitingShape(s, c);
    TakenNext(s, c, [], Reader(Input));
    assert [] + input == input;
    NothingTaken(s, c);
    var s1 := Taken(s, c, input);
    TakenKept(s, c, input);
    BytesTaken(s1, c, q);
    var s2 := Taken(s1, c, Bytes(q));
    TakenSum(s, c, input, Bytes(q));
    TakenKept(s, c, input + Bytes(q));
    WaitingShape(s2, c);
    StaleBytes(Received(s), code);
    BatchAccepted(s2, c);
    TakenSum(s, c, input + Bytes(q), rest);
  }

  lemma NothingTaken(s: State, c: ClientId)
    ensures Taken(s, c, []) == s
  {
  }

  lemma WaitingShape(s: State, c: ClientId)
    requires Reachable(s)
    ensures Mutex(s) && References(s) && BufferShape(s)
  {
    ReachableInv(s);
    assert Stream(s);
  }

  /** What the others do in the wait decides how it ends. */
  lemma WaitDecides(s: State, c: ClientId, steps: seq<Action>, op: Op, ok: bool)
    requires Reachable(s) && IsWaiting(c, s, op)
    requires c in Waited(s, c, steps).pcs && Waited(s, c, steps).pcs[c] == Woken(op, ok)
    ensures ok <==> HandedOver(c, s, Taken(s, c, steps))
    ensures ok ==> Waited(s, c, steps).rxbuf == Taken(s, c, steps).rxbuf
    ensures forall code :: BringsAnswer(s, steps, code) ==> ok && Classify(CStr(Taken(s, c, steps).rxbuf)) == code
  {
    hide Taken, CStr, Classify, Reachable, BringsAnswer, To;
    TakenKept(s, c, steps);
    forall code | BringsAnswer(s, steps, code)
      ensures ok && Classify(CStr(Taken(s, c, steps).rxbuf)) == code
    {
      AnswerWakes(s, c, op, steps, code);
    }
  }
}
