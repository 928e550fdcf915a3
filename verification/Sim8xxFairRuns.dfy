/**
 * The fairness assumptions of the liveness theorems rule out no run: whatever has happened so far, threads and
 * timers can go on fairly.
 */
module Sim8xxFairRuns {
  import opened Sim8xxProtocol
  import opened Sim8xxSafety
  import opened Sim8xxLiveness

  /** The steps that lead the reader back to its input loop, each of which can be taken as soon as it is due. */
  function WayBack(s: State): Action {
    if s.rpc.RWoken? then Reader(Unpark) else if s.rpc.RWantRx? then Reader(LockRx) else Reader(Clear)
  }

  /** How far the reader is from its input loop. */
  function WayBackLength(s: State): nat {
    if s.rpc.RWoken? then 3 else if s.rpc.RWantRx? then 2 else if s.rpc.RClearing? then 1 else 0
  }

  /** The reader does not stop on its way back for ever. */
  ghost predicate ReaderFair(run: nat -> State, act: nat -> Action) {
    forall i: nat, ra: ReaderAction | ra.Unpark? || ra.LockRx? || ra.Clear? :: Served(run, act, Reader(ra), i)
  }

  /** Nobody is calling, and no timer or reader step is due. */
  predicate AtRest(s: State) {
    && s.lock.None? && !s.armed && !s.rpc.RSaving? && WayBackLength(s) == 0
    && forall c :: c in s.pcs ==> s.pcs[c].Idle?
  }

  lemma RestIsQuiet(s: State, a: Action)
    requires AtRest(s) && (Prompt(a) || a == Reader(Unpark) || a == Reader(LockRx) || a == Reader(Clear))
    ensures !Enabled(s, a)
  {
  }

  /** The clients that wait for `lock`. */
  function Waiting(s: State): set<ClientId> {
    set c | c in s.pcs && s.pcs[c].WantLock?
  }

  /** The step that brings the driver closer to rest. */
  ghost function Next(s: State): Action {
    if s.lock.Some? then Helpful(s)
    else if c :| c in Waiting(s) then Client(c, TakeLock)
    else if s.rpc.RSaving? then Reader(Park)
    else if s.armed then TimerFire
    else WayBack(s)
  }

  lemma NextEnabled(s: State)
    requires Reachable(s) && !AtRest(s)
    ensures Enabled(s, Next(s))
  {
    assert Mutex(s) && References(s) && Conservation(s) by { ReachableInv(s); }
    if s.lock.Some? {
      HelpfulEnabled(s);
    } else {
      assert forall c :: c in s.pcs && !s.pcs[c].Idle? ==> c in Waiting(s);
    }
  }

  function Flag(b: bool): nat {
    if b then 1 else 0
  }

  /** The work left until rest, the most important part first. */
  ghost predicate Closer(s': State, s: State) {
    || |Waiting(s')| < |Waiting(s)|
    || (Waiting(s') == Waiting(s)
        && (|| Flag(s'.lock.Some?) < Flag(s.lock.Some?)
            || (s'.lock.Some? == s.lock.Some?
                && (|| Rank(s') < Rank(s)
                    || (Rank(s') == Rank(s)
                        && (|| Flag(s'.armed) < Flag(s.armed)
                            || (s'.armed == s.armed && WayBackLength(s') < WayBackLength(s))))))))
  }

  /** The step a holder of `lock` waits for leaves the queue alone. */
  lemma HelpfulKeepsWaiting(s: State)
    requires Mutex(s) && References(s) && s.lock.Some? && Enabled(s, Helpful(s))
    ensures Waiting(Step(s, Helpful(s))) == Waiting(s)
  {
  }

  lemma HelpfulCloser(s: State)
    requires Reachable(s) && s.lock.Some? && Enabled(s, Helpful(s))
    ensures Closer(Step(s, Helpful(s)), s)
  {
    hide Rank, Helpful, Waiting;
    assert Mutex(s) && References(s) && Outcomes(s) by { ReachableInv(s); }
    hide Mutex, References, Outcomes;
    HelpfulProgress(s);
    HelpfulKeepsWaiting(s);
    Harmless(s, Helpful(s));
  }

  lemma EntryCloser(s: State, c: ClientId)
    requires ClientEnabled(s, c, TakeLock)
    ensures Closer(ClientStep(s, c, TakeLock), s)
  {
    assert Waiting(ClientStep(s, c, TakeLock)) == Waiting(s) - {c};
  }

  lemma NextCloser(s: State)
    requires Reachable(s) && !AtRest(s)
    ensures Enabled(s, Next(s)) && Closer(Step(s, Next(s)), s)
  {
    NextEnabled(s);
    if s.lock.Some? {
      HelpfulCloser(s);
    } else if Next(s).Client? {
      EntryCloser(s, Next(s).c);
    }
  }

  /** Every run can be continued to rest. */
  lemma {:induction false} RunSettles(states: seq<State>, actions: seq<Action>, s: State)
    returns (states': seq<State>, actions': seq<Action>)
    requires IsRun(states, actions) && s == states[|actions|]
    ensures IsRun(states', actions') && states <= states' && actions <= actions'
    ensures AtRest(states'[|actions'|])
    decreases |Waiting(s)|, Flag(s.lock.Some?), Rank(s), Flag(s.armed), WayBackLength(s)
  {
    hide Waiting, Rank, IsRun, AtRest;
    if AtRest(s) {
      return states, actions;
    }
    NextCloser(s);
    RunGrows(states, actions, Next(s));
    states', actions' := RunSettles(states + [Step(s, Next(s))], actions + [Next(s)], Step(s, Next(s)));
  }

  /** A run that has come to rest, continued by doing nothing. */
  function Forever<T>(q: seq<T>, rest: T): nat -> T {
    (i: nat) => if i < |q| then q[i] else rest
  }

  lemma RestIsFair(states: seq<State>, actions: seq<Action>)
    requires IsRun(states, actions) && AtRest(states[|actions|])
    ensures var run, act := Forever(states, states[|actions|]), Forever(actions, Stutter);
            Behaviour(run, act) && Fair(run, act) && MutexFair(run, act) && ReaderFair(run, act)
  {
    var n, last := |actions|, states[|actions|];
    var run, act := Forever(states, last), Forever(actions, Stutter);
    forall i: nat ensures JustifiedAt(run, act, i) {
      assert i <= n ==> Justified(states, actions, i);
      assert i < n ==> Justified(states, actions, i + 1);
    }
    forall a, i: nat | Prompt(a) ensures Served(run, act, a, i) {
      RestIsQuiet(last, a);
      assert i <= i + n && !Enabled(run(i + n), a);
    }
    forall i: nat, ra: ReaderAction | ra.Unpark? || ra.LockRx? || ra.Clear? ensures Served(run, act, Reader(ra), i) {
      RestIsQuiet(last, Reader(ra));
      assert i <= i + n && !Enabled(run(i + n), Reader(ra));
    }
    forall c: ClientId, i: nat ensures GivenTurn(run, act, c, i) {
      RestIsQuiet(last, Client(c, TakeLock));
      assert i <= i + n && ShutOut(run, c, i + n);
    }
  }

  /** The behaviour begins with the run. */
  ghost predicate Begins(states: seq<State>, actions: seq<Action>, run: nat -> State, act: nat -> Action) {
    && (forall i :: 0 <= i < |states| ==> run(i) == states[i])
    && (forall i :: 0 <= i < |actions| ==> act(i) == actions[i])
  }

  /** Whatever has happened so far can be continued fairly. */
  lemma EveryRunExtends(states: seq<State>, actions: seq<Action>)
    requires IsRun(states, actions)
    ensures exists run: nat -> State, act: nat -> Action ::
              && Behaviour(run, act) && Fair(run, act) && MutexFair(run, act) && ReaderFair(run, act)
              && Begins(states, actions, run, act)
  {
    var states', actions' := RunSettles(states, actions, states[|actions|]);
    RestIsFair(states', actions');
    assert Begins(states, actions, Forever(states', states'[|actions'|]), Forever(actions', Stutter));
  }
}
