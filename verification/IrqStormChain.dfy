/** The storm chain as shared objects that workers and interrupts update in place, and the test that drives it. */
module IrqStormChain {
  import opened IrqStorm
  import opened IrqStormRuns
  import opened IrqStormDrain
  import opened StormSweep

  /** What workers and interrupts keep between one clear of the flag and the next. */
  predicate Onward(s: State, t: State) {
    && Shape(t) && |t.mb| == |s.mb| && t.h.owing == s.h.owing
    && t.h.refusals >= s.h.refusals && (s.saturated ==> t.saturated)
  }

  lemma StepOnward(s: State, a: Action)
    requires Shape(s) && Enabled(s, a) && !a.Reset?
    ensures Onward(s, Step(s, a))
  {
    StepShape(s, a);
  }

  /** A storm: workers and interrupts take those of some steps that they can take. */
  function Stormed(s: State, steps: seq<Action>): (t: State)
    requires Shape(s)
    ensures Onward(s, t)
  {
    if steps == [] then s
    else
      var m, a := Stormed(s, steps[..|steps| - 1]), steps[|steps| - 1];
      if a.Reset? || !Enabled(m, a) then m else StepOnward(m, a); Step(m, a)
  }

  /** From state to state those of some steps are taken, one after the other, that can be taken. */
  ghost predicate Tries(states: seq<State>, steps: seq<Action>) {
    && |states| == |steps| + 1
    && forall i :: 0 <= i < |steps| ==> Tried(states[i], steps[i], states[i + 1])
  }

  predicate Tried(s: State, a: Action, t: State) {
    Shape(s) && t == if a.Reset? || !Enabled(s, a) then s else Step(s, a)
  }

  /** A storm takes every step that can be taken, in order. */
  lemma {:induction false} StormTakesAll(states: seq<State>, steps: seq<Action>, k: nat)
    requires Tries(states, steps) && k <= |steps| && Shape(states[0])
    ensures Stormed(states[0], steps[..k]) == states[k]
  {
    if k > 0 {
      StormTakesAll(states, steps, k - 1);
      assert Tried(states[k - 1], steps[k - 1], states[k]);
      assert steps[..k][..k - 1] == steps[..k - 1];
    }
  }

  lemma {:induction false} StormSum(s: State, a: seq<Action>, b: seq<Action>)
    requires Shape(s)
    ensures Stormed(s, a + b) == Stormed(Stormed(s, a), b)
    decreases |b|
  {
    if b == [] {
      assert a + b == a;
    } else {
      var n := |b| - 1;
      StormSum(s, a, b[..n]);
      assert (a + b)[..|a + b| - 1] == a + b[..n] && (a + b)[|a + b| - 1] == b[n];
    }
  }

  /** All steps of the storms at some intervals. */
  function StormsAt(storm: nat -> seq<Action>, intervals: seq<nat>): seq<Action> {
    if intervals == [] then [] else storm(intervals[0]) + StormsAt(storm, intervals[1..])
  }

  /** The end of an interval comes after the storms of all intervals up to it. */
  lemma {:induction false} SweptIsStorm(s: State, storm: nat -> seq<Action>, from: nat, k: nat)
    requires Shape(s) && k < |Intervals(from)|
    ensures Swept(s, storm, from, Intervals(from)[k]) == Stormed(s, StormsAt(storm, Intervals(from)[..k + 1]))
    decreases k
  {
    hide Stormed, Shape;
    var q, t := Intervals(from)[..k + 1], Stormed(s, storm(from));
    if k == 0 {
      SweptHere(s, storm, from);
      assert q == [from] && q[1..] == [] && storm(from) + [] == storm(from);
    } else {
      RestBelow(from, k - 1);
      SweptOn(s, storm, from, Intervals(from)[k]);
      SweptIsStorm(t, storm, Next(from), k - 1);
      assert q == [from] + Intervals(Next(from))[..k] && q[1..] == Intervals(Next(from))[..k];
      StormSum(s, storm(from), StormsAt(storm, q[1..]));
    }
  }

  /** The chain at the end of one of the intervals, when the sweep goes on from `from`. */
  function Swept(s: State, storm: nat -> seq<Action>, from: nat, interval: nat): (t: State)
    requires Shape(s)
    ensures Onward(s, t)
    decreases from
  {
    var t := Stormed(s, storm(from));
    if from <= interval || from < SHORTEST then t else Swept(t, storm, Next(from), interval)
  }

  /** Whether the flag is found set at the end of an interval. */
  function Saturation(s: State, storm: nat -> seq<Action>, from: nat): nat -> bool
    requires Shape(s)
  {
    (interval: nat) => Swept(s, storm, from, interval).saturated
  }

  /** The chain at the end of the sweep, which stops at the first interval whose end finds the flag set. */
  function SweepEnd(s: State, storm: nat -> seq<Action>, from: nat): (t: State)
    requires Shape(s)
    ensures Onward(s, t)
    decreases from
  {
    if from < SHORTEST then s
    else
      var t := Stormed(s, storm(from));
      if t.saturated then t else SweepEnd(t, storm, Next(from))
  }

  lemma ResetFacts(s: State)
    requires Shape(s)
    ensures var t := Step(s, Reset);
            Shape(t) && t.h.owing == |Owing(s)| && t.mb == s.mb && !t.saturated && t.h.refusals == 0
  {
  }

  lemma SweptHere(s: State, storm: nat -> seq<Action>, from: nat)
    requires Shape(s)
    ensures Swept(s, storm, from, from) == Stormed(s, storm(from))
  {
  }

  lemma SweepBegins(s: State, storm: nat -> seq<Action>, start: nat)
    requires Shape(s)
    ensures SameSweep(s, storm, start, s, start)
  {
  }

  lemma SweepStops(s0: State, storm: nat -> seq<Action>, start: nat, s: State, from: nat)
    requires Shape(s0) && Shape(s) && from < SHORTEST && SameSweep(s0, storm, start, s, from)
    ensures SweepEnd(s0, storm, start) == s
  {
  }

  /** What happens at shorter intervals, seen from the next one. */
  lemma SweptOn(s: State, storm: nat -> seq<Action>, from: nat, interval: nat)
    requires Shape(s) && from >= SHORTEST && interval < from
    ensures Swept(s, storm, from, interval) == Swept(Stormed(s, storm(from)), storm, Next(from), interval)
  {
    hide Stormed, Shape;
  }

  lemma SaturationOn(s: State, storm: nat -> seq<Action>, from: nat, interval: nat)
    requires Shape(s) && from >= SHORTEST && interval < from
    ensures Saturation(s, storm, from)(interval)
            == Saturation(Stormed(s, storm(from)), storm, Next(from))(interval)
  {
    hide Stormed, Shape, Swept;
    SweptOn(s, storm, from, interval);
  }

  lemma SweepEndStep(s: State, storm: nat -> seq<Action>, from: nat)
    requires Shape(s)
    ensures SweepEnd(s, storm, from)
            == if from < SHORTEST then s
               else if Stormed(s, storm(from)).saturated then Stormed(s, storm(from))
               else SweepEnd(Stormed(s, storm(from)), storm, Next(from))
  {
  }

  /** The sweep that began with s0 at `start` has come to s, and goes on from `from`. */
  ghost predicate SameSweep(s0: State, storm: nat -> seq<Action>, start: nat, s: State, from: nat)
    requires Shape(s0) && Shape(s)
  {
    && SweepEnd(s, storm, from) == SweepEnd(s0, storm, start)
    && forall x: nat :: x <= from ==> Swept(s, storm, from, x) == Swept(s0, storm, start, x)
  }

  lemma SameSweepOn(s0: State, storm: nat -> seq<Action>, start: nat, s: State, from: nat)
    requires Shape(s0) && Shape(s) && from >= SHORTEST && SameSweep(s0, storm, start, s, from)
    ensures var t := Stormed(s, storm(from));
            && Swept(s0, storm, start, from) == t
            && (if t.saturated then SweepEnd(s0, storm, start) == t
                else SameSweep(s0, storm, start, t, Next(from)))
  {
    hide Stormed, Shape, Swept, SweepEnd;
    SweptHere(s, storm, from);
    SweepEndStep(s, storm, from);
    forall x: nat | x <= Next(from)
      ensures Swept(Stormed(s, storm(from)), storm, Next(from), x) == Swept(s0, storm, start, x)
    {
      SweptOn(s, storm, from, x);
    }
  }

  lemma FlagsAgree(s: State, storm: nat -> seq<Action>, from: nat, i: nat)
    requires Shape(s) && from >= SHORTEST && i < |Intervals(Next(from))|
    ensures Saturation(s, storm, from)(Intervals(Next(from))[i])
            == Saturation(Stormed(s, storm(from)), storm, Next(from))(Intervals(Next(from))[i])
  {
    hide Saturation, Stormed, Shape;
    RestBelow(from, i);
    SaturationOn(s, storm, from, Intervals(Next(from))[i]);
  }

  lemma RestBelow(from: nat, i: nat)
    requires from >= SHORTEST && i < |Intervals(Next(from))|
    ensures Intervals(Next(from))[i] < from
  {
    IntervalsShrink(Next(from));
  }

  /** The sweep goes on behind an interval that has not saturated the chain. */
  lemma SweepOn(s: State, storm: nat -> seq<Action>, from: nat)
    requires Shape(s) && from >= SHORTEST && !Saturation(s, storm, from)(from)
    ensures FirstSaturating(Intervals(from), Saturation(s, storm, from))
            == FirstSaturating(Intervals(Next(from)), Saturation(Stormed(s, storm(from)), storm, Next(from)))
  {
    hide Saturation, Stormed, Intervals, Swept, FirstSaturating;
    var rest := Intervals(Next(from));
    var f, g := Saturation(s, storm, from), Saturation(Stormed(s, storm(from)), storm, Next(from));
    forall i | 0 <= i < |rest| ensures f(rest[i]) == g(rest[i]) {
      FlagsAgree(s, storm, from, i);
    }
    SameThreshold(rest, f, g);
    ThresholdOn(from, f);
  }

  lemma SweepOver(from: nat, f: nat -> bool)
    requires from < SHORTEST
    ensures FirstSaturating(Intervals(from), f) == 0
  {
  }

  lemma ThresholdOn(from: nat, f: nat -> bool)
    requires from >= SHORTEST && !f(from)
    ensures FirstSaturating(Intervals(from), f) == FirstSaturating(Intervals(Next(from)), f)
  {
    assert Intervals(from) == [from] + Intervals(Next(from));
  }

  /** What happens in iteration i. */
  function StormOf(storm: (nat, nat) -> seq<Action>, i: nat): nat -> seq<Action> {
    (interval: nat) => storm(i, interval)
  }

  ghost predicate Quietens(s: State, steps: seq<Action>, t: State)
    requires Shape(s)
  {
    (forall a :: a in steps ==> ByWorker(a)) && t == Stormed(s, steps)
  }

  /** The workers alone bring the chain from s to rest in t. */
  ghost predicate Rests(s: State, t: State)
    requires Shape(s)
  {
    Shape(t) && AtRest(t) && exists steps :: Quietens(s, steps, t)
  }

  /**
   * One iteration from s to s', the pause included: the threshold is the first interval of the sweep that
   * saturates the chain, or 0, and so many posts were refused by the end of the sweep.
   */
  ghost predicate Iterated(
    s: State, storm: nat -> seq<Action>, start: nat, threshold: nat, refusals: nat, s': State)
  {
    && Shape(s)
    && var s0 := Step(s, Reset);
       && Shape(s0)
       && threshold == FirstSaturating(Intervals(start), Saturation(s0, storm, start))
       && refusals == SweepEnd(s0, storm, start).h.refusals
       && Rests(SweepEnd(s0, storm, start), s')
  }

  lemma NoStorm(s: State)
    requires Shape(s)
    ensures Stormed(s, []) == s
  {
  }

  lemma StormGrows(s: State, steps: seq<Action>, a: Action)
    requires Shape(s) && Enabled(Stormed(s, steps), a) && !a.Reset?
    ensures Stormed(s, steps + [a]) == Step(Stormed(s, steps), a)
  {
    assert (steps + [a])[..|steps|] == steps;
  }

  /** A clear flag leaves at most one refusal for each worker unreported. */
  lemma ClearFlagBound(s: State)
    requires Reachable(s) && !s.saturated
    ensures s.h.refusals <= |s.mb|
  {
    FlagExplained(s);
    assert Shape(s) by { ReachableInv(s); }
    Subset(Owing(s) - s.h.overdue, |s.mb|);
  }

  lemma {:induction false} Subset(a: set<nat>, n: nat)
    requires forall i :: i in a ==> i < n
    ensures |a| <= n
  {
    if n > 0 {
      Subset(a - {n - 1}, n - 1);
      assert a <= (a - {n - 1}) + {n - 1};
    } else {
      assert a == {};
    }
  }

  /**
   * A false alarm: a worker whose post was refused before the flag was cleared writes it in the first interval.
   * The sweep reports this interval, whatever it is, although no post has been refused.
   */
  lemma FalseAlarm(storm: nat -> seq<Action>, start: nat)
    requires start >= SHORTEST && storm(start) == [Raise(0)]
    ensures Reachable(Told(4)) && Shape(Told(4)) && Step(Told(4), Reset) == Told(5) && Shape(Told(5))
    ensures FirstSaturating(Intervals(start), Saturation(Told(5), storm, start)) == start
    ensures SweepEnd(Told(5), storm, start).saturated && SweepEnd(Told(5), storm, start).h.refusals == 0
  {
    StoryReachable(4);
    StoryShape(4);
    StoryShape(5);
    StoryEnds(4);
    StoryEnds(5);
    NoStorm(Told(5));
    StormGrows(Told(5), [], Raise(0));
    assert [] + [Raise(0)] == storm(start);
    SweptHere(Told(5), storm, start);
    assert Saturation(Told(5), storm, start)(start);
    assert Intervals(start)[0] == start;
  }

  /** The chain as the code keeps it: mailboxes and flag are shared by the workers and the interrupts. */
  class StormChain {
    var mb: seq<seq<Msg>>
    var hand: seq<Hand>
    const capacity: nat
    var saturated: bool
    var h: History

    function View(): State
      reads this
    {
      State(mb, hand, capacity, saturated, h)
    }

    ghost predicate Valid()
      reads this
    {
      Shape(View()) && Reachable(View())
    }

    twostate predicate Took(a: Action)
      reads this
    {
      Valid() && old(Shape(View()) && Enabled(View(), a)) && View() == Step(old(View()), a)
    }

    constructor (threads: nat, mailboxSize: nat)
      requires 1 <= threads < WORD && mailboxSize >= 1
      ensures Valid() && Init(View()) && |mb| == threads && capacity == mailboxSize
    {
      mb := seq(threads, _ => []);
      hand := seq(threads, _ => Empty);
      capacity, saturated, h := mailboxSize, false, NO_HISTORY;
      new;
      BothDirections(h.injected);
      InitReachable(View());
    }

    twostate lemma StepTaken(a: Action)
      requires old(Valid()) && old(Enabled(View(), a)) && View() == Step(old(View()), a)
      ensures Took(a)
    {
      hide Step, Reachable;
      ReachableStep(old(View()), a);
      StepShape(old(View()), a);
    }

    /** chMBPostI, or chMBPostTimeout without waiting. */
    method PostMessage(t: nat, m: Msg) returns (ok: bool)
      requires Shape(View()) && t < |mb|
      modifies this
      ensures View() == Post(old(View()), t, m) && ok == !Full(old(View()), t)
    {
      ok := |mb[t]| < capacity;
      if ok {
        mb := mb[t := mb[t] + [m]];
      } else {
        h := h.(refused := h.refused + [m], refusals := h.refusals + 1);
      }
    }

    /** Both callbacks: a post and the write of the flag in one critical section. */
    method Callback(t: nat, d: Direction)
      requires Valid() && t == Entrance(View(), d)
      modifies this
      ensures Took(Inject(d))
    {
      hide Reachable;
      var n := h.injected[d];
      var ok := PostMessage(t, Msg(d, n));
      h := h.(injected := h.injected[d := n + 1]);
      if !ok {
        saturated := true;
        h := h.(written := h.written + 1);
      }
      StepTaken(Inject(d));
    }

    /** irq_storm_gpt1_cb: a right-moving message enters at the first worker. */
    method Gpt1Callback()
      requires Valid()
      modifies this
      ensures Took(Inject(Right))
    {
      Callback(0, Right);
    }

    /** irq_storm_gpt2_cb: a left-moving message enters at the last worker. */
    method Gpt2Callback()
      requires Valid()
      modifies this
      ensures Took(Inject(Left))
    {
      Callback(|mb| - 1, Left);
    }

    /** The worker's wait for a message, once there is one. */
    method FetchMessage(me: nat)
      requires Valid() && Enabled(View(), Fetch(me))
      modifies this
      ensures Took(Fetch(me))
    {
      hide Reachable;
      hand := hand[me := Holding(mb[me][0])];
      mb := mb[me := mb[me][1..]];
      StepTaken(Fetch(me));
    }

    /** The message goes to a neighbour, or out at the end of the chain. */
    method SendOn(me: nat)
      requires Valid() && Enabled(View(), Forward(me))
      modifies this
      ensures Took(Forward(me))
    {
      hide Reachable;
      var m := hand[me].msg;
      var target := if m.dir == Left then (me + WORD - 1) % WORD else (me + 1) % WORD;
      hand := hand[me := Empty];
      if target < |mb| {
        var ok := PostMessage(target, m);
        if !ok {
          hand := hand[me := Refused];
        }
      } else {
        h := h.(exited := h.exited + [m]);
      }
      StepTaken(Forward(me));
    }

    /** The worker's write of the flag, outside any critical section. */
    method WriteFlag(me: nat)
      requires Valid() && Enabled(View(), Raise(me))
      modifies this
      ensures Took(Raise(me))
    {
      hide Reachable;
      hand := hand[me := Empty];
      saturated := true;
      if me in h.overdue {
        h := h.(landed := h.landed + 1, overdue := h.overdue - {me});
      } else {
        h := h.(written := h.written + 1);
      }
      StepTaken(Raise(me));
    }

    /** The start of an iteration of the test. */
    method ClearFlag()
      requires Valid()
      modifies this
      ensures Took(Reset)
    {
      hide Reachable;
      saturated := false;
      h := h.(refusals := 0, written := 0, landed := 0, owing := |Owing(View())|, overdue := Owing(View()));
      StepTaken(Reset);
    }

    method Perform(a: Action)
      requires Valid() && Enabled(View(), a)
      modifies this
      ensures Took(a)
    {
      match a {
        case Inject(Right) => Gpt1Callback();
        case Inject(Left) => Gpt2Callback();
        case Fetch(me) => FetchMessage(me);
        case Forward(me) => SendOn(me);
        case Raise(me) => WriteFlag(me);
        case Reset => ClearFlag();
      }
    }

    method Storm(steps: seq<Action>)
      requires Valid()
      modifies this
      ensures Valid() && View() == Stormed(old(View()), steps)
    {
      hide Reachable, Step;
      var i := 0;
      while i < |steps|
        invariant Valid() && i <= |steps| && View() == Stormed(old(View()), steps[..i])
      {
        assert steps[..i + 1][..i] == steps[..i];
        if !steps[i].Reset? && Enabled(View(), steps[i]) {
          Perform(steps[i]);
        }
        i := i + 1;
      }
      assert steps[..|steps|] == steps;
    }

    /** The test at one interval, and what it says about the sweep from there on. */
    method StormAt(interval: nat, storm: nat -> seq<Action>)
      requires Valid() && interval >= SHORTEST && !saturated
      modifies this
      ensures Valid() && |mb| == |old(mb)| && h.owing == old(h.owing)
      ensures View() == Stormed(old(View()), storm(interval))
      ensures FirstSaturating(Intervals(interval), Saturation(old(View()), storm, interval))
              == (if saturated then interval
                  else FirstSaturating(Intervals(Next(interval)), Saturation(View(), storm, Next(interval))))
      ensures !saturated ==> h.refusals <= |mb|
      ensures saturated && h.owing == 0 ==> h.refusals > 0
    {
      hide Reachable, Step, Owing;
      ghost var s := View();
      Storm(storm(interval));
      assert Saturation(s, storm, interval)(interval) == saturated;
      if saturated {
        SaturatedMeansRefused(View());
        assert Intervals(interval)[0] == interval;
      } else {
        ClearFlagBound(View());
        SweepOn(s, storm, interval);
      }
    }

    /**
     * One iteration of the test.  storm(interval) is what happens while the timers run at that interval, and
     * counts are the posts refused by the end of each interval tried.  The threshold is the first interval at
     * whose end the flag is found set, and it is the start or only a tenth below one that did not do.  It is no
     * false alarm if no worker had still to write the flag when it was cleared; before it at most one refusal
     * for each worker has gone unnoticed.
     */
    method Iteration(storm: nat -> seq<Action>, start: nat := START) returns (threshold: nat, counts: seq<nat>)
      requires Valid()
      modifies this
      ensures Valid() && |mb| == |old(mb)|
      ensures var s := Step(old(View()), Reset);
              && View() == SweepEnd(s, storm, start)
              && (start >= 2 ==> View() == Swept(s, storm, start, if threshold == 0 then 2 else threshold))
              && threshold == FirstSaturating(Intervals(start), Saturation(s, storm, start))
              && |counts| <= |Intervals(start)|
              && forall i :: 0 <= i < |counts| ==> counts[i] == Swept(s, storm, start, Intervals(start)[i]).h.refusals
      ensures if threshold == 0 then |counts| == |Intervals(start)|
              else |counts| > 0 && threshold == Intervals(start)[|counts| - 1]
      ensures threshold != 0 ==>
                if |counts| == 1 then threshold == start
                else var before := Intervals(start)[|counts| - 2];
                     && 0 <= 9 * before - 10 * threshold < 10
                     && !Swept(Step(old(View()), Reset), storm, start, before).saturated
      ensures h.refusals == if counts == [] then 0 else counts[|counts| - 1]
      ensures threshold != 0 && old(Owing(View())) == {} ==> h.refusals > 0
      ensures forall i :: 0 <= i < |counts| && (threshold == 0 || i < |counts| - 1) ==> counts[i] <= |mb|
    {
      hide Reachable, Step, Stormed, Swept, SweepEnd, SameSweep, Saturation, Owing, Shape, Intervals, FirstSaturating;
      ResetFacts(View());
      ClearFlag();
      ghost var s, q := View(), Intervals(start);
      ghost var goal := FirstSaturating(q, Saturation(s, storm, start));
      SweepBegins(s, storm, start);
      IntervalsComplete(start);
      threshold, counts := 0, [];
      var interval: nat := start;
      while interval >= SHORTEST
        invariant Valid() && |mb| == |old(mb)| && !saturated && threshold == 0
        invariant h.owing == |old(Owing(View()))|
        invariant |counts| <= |q| && q[|counts|..] == Intervals(interval)
        invariant SameSweep(s, storm, start, View(), interval)
        invariant FirstSaturating(Intervals(interval), Saturation(View(), storm, interval)) == goal
        invariant forall i :: 0 <= i < |counts| ==> counts[i] == Swept(s, storm, start, q[i]).h.refusals
        invariant counts != [] ==> View() == Swept(s, storm, start, q[|counts| - 1])
        invariant h.refusals == if counts == [] then 0 else counts[|counts| - 1]
        invariant forall i :: 0 <= i < |counts| ==> counts[i] <= |mb|
        decreases interval
      {
        TriesNext(|counts|, interval, start);
        SameSweepOn(s, storm, start, View(), interval);
        StormAt(interval, storm);
        counts := counts + [h.refusals];
        if saturated {
          if threshold == 0 {
            threshold := interval;
          }
          break;
        }
        interval := interval - (interval + 9) / 10;
      }
      if threshold == 0 {
        TriesNext(|counts|, interval, start);
        SweepOver(interval, Saturation(View(), storm, interval));
        SweepStops(s, storm, start, View(), interval);
      }
    }

    /** The pause between iterations, if it is long enough: the workers go on until the chain is at rest. */
    method Pause()
      requires Valid()
      modifies this
      ensures Valid() && |mb| == |old(mb)| && Rests(old(View()), View()) && Owing(View()) == {}
      ensures old(h.owing) == 0 ==> (saturated <==> h.refusals > 0)
    {
      hide Reachable, Step, Stormed;
      ghost var steps: seq<Action> := [];
      NoStorm(View());
      while !AtRest(View())
        invariant Valid() && View() == Stormed(old(View()), steps) && forall a :: a in steps ==> ByWorker(a)
        decreases Load(View())
      {
        var i :| 0 <= i < |mb| && !(mb[i] == [] && hand[i] == Empty);
        var a := if hand[i].Empty? then Fetch(i) else if hand[i].Holding? then Forward(i) else Raise(i);
        WorkerLightens(View(), a);
        StormGrows(old(View()), steps, a);
        Perform(a);
        steps := steps + [a];
      }
      assert Quietens(old(View()), steps, View());
      SaturatedMeansRefused(View());
    }

    /**
     * The test.  Each threshold is that of the iteration's own sweep, from the state in which the pause before
     * has left the chain; as long as the pauses are long enough, none is a false alarm.
     */
    method Test(iterations: nat, storm: (nat, nat) -> seq<Action>, start: nat := START)
      returns (worst: nat, thresholds: seq<nat>, refusals: seq<nat>, ghost states: seq<State>)
      requires Valid() && Owing(View()) == {}
      modifies this
      ensures Valid() && |thresholds| == iterations == |refusals| && |states| == iterations + 1
      ensures states[0] == old(View()) && states[iterations] == View()
      ensures forall i :: 0 <= i < iterations ==>
                Iterated(states[i], StormOf(storm, i + 1), start, thresholds[i], refusals[i], states[i + 1])
      ensures forall i :: 0 <= i < iterations ==> thresholds[i] <= worst
      ensures worst in thresholds || (worst == 0 && thresholds == [])
      ensures forall i :: 0 <= i < iterations ==> if thresholds[i] == 0 then refusals[i] <= |mb| else refusals[i] > 0
    {
      hide Reachable, Step, Stormed, SweepEnd, Saturation, FirstSaturating, Intervals;
      worst, thresholds, refusals, states := 0, [], [], [View()];
      var i := 1;
      while i <= iterations
        invariant Valid() && |mb| == |old(mb)| && Owing(View()) == {}
        invariant 1 <= i <= iterations + 1 && |thresholds| == i - 1 == |refusals| && |states| == i
        invariant states[0] == old(View()) && states[i - 1] == View()
        invariant forall j :: 0 <= j < i - 1 ==>
                    Iterated(states[j], StormOf(storm, j + 1), start, thresholds[j], refusals[j], states[j + 1])
        invariant forall j :: 0 <= j < i - 1 ==> thresholds[j] <= worst
        invariant worst in thresholds || (worst == 0 && thresholds == [])
        invariant forall j :: 0 <= j < i - 1 ==> if thresholds[j] == 0 then refusals[j] <= |mb| else refusals[j] > 0
      {
        ResetFacts(View());
        var threshold, counts := Iteration(StormOf(storm, i), start);
        assert threshold == 0 && counts != [] ==> counts[|counts| - 1] <= |mb|;
        thresholds, refusals := thresholds + [threshold], refusals + [h.refusals];
        Pause();
        states := states + [View()];
        if threshold > worst {
          worst := threshold;
        }
        i := i + 1;
      }
    }
  }
}
