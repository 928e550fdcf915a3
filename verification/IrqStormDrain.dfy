/** Draining: with injection stopped the workers come to rest with all mailboxes empty. */
module IrqStormDrain {
  import opened IrqStorm

  /** Twice the hops left, counting the exit as one. */
  function Weight(n: nat, i: nat, m: Msg): nat
    requires i < n
  {
    2 * (n - Hops(n, m.dir, i))
  }

  function QueueCost(n: nat, i: nat, q: seq<Msg>): nat
    requires i < n
  {
    if q == [] then 0 else Weight(n, i, q[0]) + QueueCost(n, i, q[1..])
  }

  function HandCost(n: nat, i: nat, h: Hand): nat
    requires i < n
  {
    match h
    case Empty => 0
    case Holding(m) => Weight(n, i, m) - 1
    case Refused => 1
  }

  function Costs(s: State): seq<nat>
    requires Shape(s)
  {
    seq(|s.mb|, i requires 0 <= i < |s.mb| => HandCost(|s.mb|, i, s.hand[i]) + QueueCost(|s.mb|, i, s.mb[i]))
  }

  function Sum(c: seq<nat>): nat {
    if c == [] then 0 else c[0] + Sum(c[1..])
  }

  /** The work that is left: bounds the number of steps until rest. */
  function Load(s: State): nat
    requires Shape(s)
  {
    Sum(Costs(s))
  }

  lemma {:induction false} SumUpdate(c: seq<nat>, i: nat, x: nat)
    requires i < |c|
    ensures Sum(c[i := x]) == Sum(c) - c[i] + x
  {
    if i > 0 {
      assert c[i := x][1..] == c[1..][i - 1 := x];
      SumUpdate(c[1..], i - 1, x);
    } else {
      assert c[i := x][1..] == c[1..];
    }
  }

  lemma {:induction false} QueueCostAppend(n: nat, i: nat, q: seq<Msg>, m: Msg)
    requires i < n
    ensures QueueCost(n, i, q + [m]) == QueueCost(n, i, q) + Weight(n, i, m)
  {
    if q == [] {
      assert q + [m] == [m];
    } else {
      assert (q + [m])[1..] == q[1..] + [m];
      QueueCostAppend(n, i, q[1..], m);
    }
  }

  lemma FetchLightens(s: State, me: nat)
    requires Shape(s) && Enabled(s, Fetch(me))
    ensures Shape(Step(s, Fetch(me))) && Load(Step(s, Fetch(me))) == Load(s) - 1
  {
    var s' := Step(s, Fetch(me));
    assert Costs(s') == Costs(s)[me := Costs(s)[me] - 1];
    SumUpdate(Costs(s), me, Costs(s)[me] - 1);
  }

  lemma RaiseLightens(s: State, me: nat)
    requires Shape(s) && Enabled(s, Raise(me))
    ensures Shape(Step(s, Raise(me))) && Load(Step(s, Raise(me))) == Load(s) - 1
  {
    var s' := Step(s, Raise(me));
    assert Costs(s') == Costs(s)[me := Costs(s)[me] - 1];
    SumUpdate(Costs(s), me, Costs(s)[me] - 1);
  }

  lemma EmptyingLightens(s: State, me: nat, hand: Hand)
    requires Shape(s) && Enabled(s, Forward(me)) && !hand.Holding?
    ensures Shape(WithHand(s, me, hand))
    ensures Load(WithHand(s, me, hand))
            == Load(s) + 1 - Weight(|s.mb|, me, s.hand[me].msg) + HandCost(|s.mb|, me, hand)
  {
    var x := Costs(s)[me] + 1 - Weight(|s.mb|, me, s.hand[me].msg) + HandCost(|s.mb|, me, hand);
    assert Costs(WithHand(s, me, hand)) == Costs(s)[me := x];
    SumUpdate(Costs(s), me, x);
  }

  lemma PostWeighs(s: State, t: nat, m: Msg)
    requires Shape(s) && t < |s.mb|
    ensures Shape(Post(s, t, m))
    ensures Load(Post(s, t, m)) == Load(s) + (if Full(s, t) then 0 else Weight(|s.mb|, t, m))
  {
    if !Full(s, t) {
      var x := Costs(s)[t] + Weight(|s.mb|, t, m);
      QueueCostAppend(|s.mb|, t, s.mb[t], m);
      assert Costs(Post(s, t, m)) == Costs(s)[t := x];
      SumUpdate(Costs(s), t, x);
    } else {
      assert Costs(Post(s, t, m)) == Costs(s);
    }
  }

  /** Sending on brings the rest closer, whether the post succeeds, is refused, or the message leaves. */
  lemma ForwardLightens(s: State, me: nat)
    requires Shape(s) && Enabled(s, Forward(me))
    ensures Shape(Step(s, Forward(me))) && Load(Step(s, Forward(me))) < Load(s)
  {
    hide Load;
    var m, t := s.hand[me].msg, Target(me, s.hand[me].msg.dir);
    if t < |s.mb| {
      var hand := if Full(s, t) then Refused else Empty;
      EmptyingLightens(s, me, hand);
      PostWeighs(WithHand(s, me, hand), t, m);
      NextHop(|s.mb|, me, m.dir);
    } else {
      EmptyingLightens(s, me, Empty);
      SameLoad(Step(s, Forward(me)), WithHand(s, me, Empty));
    }
  }

  lemma SameLoad(s: State, s': State)
    requires Shape(s) && Shape(s') && s.mb == s'.mb && s.hand == s'.hand
    ensures Load(s) == Load(s')
  {
    assert Costs(s) == Costs(s');
  }

  predicate ByWorker(a: Action) {
    a.Fetch? || a.Forward? || a.Raise?
  }

  ghost predicate WorkerStep(states: seq<State>, actions: seq<Action>, i: nat)
    requires i < |actions| < |states|
  {
    && ByWorker(actions[i])
    && Shape(states[i]) && Enabled(states[i], actions[i]) && states[i + 1] == Step(states[i], actions[i])
  }

  lemma WorkerLightens(s: State, a: Action)
    requires Shape(s) && Enabled(s, a) && ByWorker(a)
    ensures Shape(Step(s, a)) && Load(Step(s, a)) < Load(s)
  {
    match a
    case Fetch(me) => FetchLightens(s, me);
    case Forward(me) => ForwardLightens(s, me);
    case Raise(me) => RaiseLightens(s, me);
  }

  /** However the workers are interleaved, each of their steps uses up some of the load. */
  lemma {:induction false} WorkersTire(states: seq<State>, actions: seq<Action>, k: nat)
    requires |states| == |actions| + 1 && k <= |actions| && Shape(states[0])
    requires forall i :: 0 <= i < |actions| ==> WorkerStep(states, actions, i)
    ensures Shape(states[k]) && k + Load(states[k]) <= Load(states[0])
  {
    if k > 0 {
      WorkersTire(states, actions, k - 1);
      assert WorkerStep(states, actions, k - 1);
      WorkerLightens(states[k - 1], actions[k - 1]);
    }
  }

  predicate AtRest(s: State)
    requires Shape(s)
  {
    forall i :: 0 <= i < |s.mb| ==> s.mb[i] == [] && s.hand[i] == Empty
  }

  ghost predicate NobodyCanAct(s: State) {
    forall a :: ByWorker(a) ==> !Enabled(s, a)
  }

  /** No circular wait: as long as a message is anywhere in the chain, or a flag unwritten, some worker can act. */
  lemma SomeWorkerCanAct(s: State)
    requires Shape(s)
    ensures AtRest(s) <==> NobodyCanAct(s)
  {
    if !AtRest(s) {
      var i :| 0 <= i < |s.mb| && !(s.mb[i] == [] && s.hand[i] == Empty);
      assert Enabled(s, Fetch(i)) || Enabled(s, Forward(i)) || Enabled(s, Raise(i));
    }
  }

  /** From any state the workers, left alone, empty the chain in a bounded number of steps. */
  lemma ChainDrains(states: seq<State>, actions: seq<Action>)
    requires |states| == |actions| + 1 && Shape(states[0])
    requires forall i :: 0 <= i < |actions| ==> WorkerStep(states, actions, i)
    ensures |actions| <= Load(states[0])
    ensures Shape(states[|actions|])
    ensures NobodyCanAct(states[|actions|]) ==> AtRest(states[|actions|])
  {
    WorkersTire(states, actions, |actions|);
    SomeWorkerCanAct(states[|actions|]);
  }
}
