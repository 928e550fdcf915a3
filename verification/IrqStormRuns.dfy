/** The order and the conservation of the messages in the storm chain, over every run. */
module IrqStormRuns {
  import opened IrqStorm

  predicate Increasing(q: seq<nat>) {
    forall i, j :: 0 <= i < j < |q| ==> q[i] < q[j]
  }

  /** The numbers below n are split between two sequences, the first in increasing order, each number once. */
  ghost predicate Accounted(stream: seq<nat>, lost: seq<nat>, n: nat) {
    && Increasing(stream)
    && (forall i, j :: 0 <= i < j < |lost| ==> lost[i] != lost[j])
    && (forall id: nat :: id in stream ==> id !in lost)
    && (forall id: nat :: id in stream || id in lost <==> id < n)
    && |stream| + |lost| == n
  }

  lemma EnteredAccounted(stream: seq<nat>, lost: seq<nat>, n: nat)
    requires Accounted(stream, lost, n)
    ensures Accounted(stream + [n], lost, n + 1)
  {
    assert forall i :: 0 <= i < |stream| ==> stream[i] in stream;
  }

  lemma TurnedAwayAccounted(stream: seq<nat>, lost: seq<nat>, n: nat)
    requires Accounted(stream, lost, n)
    ensures Accounted(stream, lost + [n], n + 1)
  {
    assert forall i :: 0 <= i < |lost| ==> lost[i] in lost;
  }

  /** A number cut out of an increasing sequence. */
  lemma CutIncreasing(u: seq<nat>, x: nat, v: seq<nat>)
    requires Increasing(u + [x] + v)
    ensures Increasing(u + v) && x !in u + v
  {
    var stream := u + [x] + v;
    assert forall i :: 0 <= i < |u| ==> stream[i] == u[i];
    assert forall i :: 0 <= i < |v| ==> stream[|u| + 1 + i] == v[i];
    assert stream[|u|] == x;
  }

  lemma DroppedAccounted(u: seq<nat>, x: nat, v: seq<nat>, lost: seq<nat>, n: nat)
    requires Accounted(u + [x] + v, lost, n)
    ensures Accounted(u + v, lost + [x], n)
  {
    CutIncreasing(u, x, v);
    hide Increasing;
    assert forall id: nat :: id in u + [x] + v <==> id in u + v || id == x;
    assert forall i :: 0 <= i < |lost| ==> lost[i] in lost;
  }

  lemma ChangeAccounted(s: State, s': State, d: Direction, c: Change)
    requires Shape(s) && Shape(s') && Changed(s, s', d, c)
    requires Accounted(Stream(s, d), Lost(s, d), s.h.injected[d])
    ensures Accounted(Stream(s', d), Lost(s', d), s'.h.injected[d])
  {
    match c
    case Same =>
    case Entered => EnteredAccounted(Stream(s, d), Lost(s, d), s.h.injected[d]);
    case TurnedAway => TurnedAwayAccounted(Stream(s, d), Lost(s, d), s.h.injected[d]);
    case Dropped(u, x, v) => DroppedAccounted(u, x, v, Lost(s, d), s.h.injected[d]);
  }

  /** The flag, and the posts and writes since it was cleared. */
  predicate FlagBooks(s: State) {
    && (s.saturated <==> s.h.written > 0 || s.h.landed > 0)
    && s.h.overdue <= Owing(s)
    && s.h.refusals == s.h.written + |Owing(s) - s.h.overdue|
    && s.h.owing == s.h.landed + |s.h.overdue|
  }

  ghost predicate Inv(s: State) {
    && Shape(s) && FlagBooks(s)
    && (forall d: Direction :: Accounted(Stream(s, d), Lost(s, d), s.h.injected[d]))
  }

  lemma {:induction false} EmptyCat(h: seq<seq<nat>>)
    requires forall i :: 0 <= i < |h| ==> h[i] == []
    ensures Cat(h) == []
  {
    if h != [] {
      EmptyCat(h[1..]);
    }
  }

  lemma InitInv(s: State)
    requires Init(s)
    ensures Inv(s)
  {
    forall d: Direction ensures Accounted(Stream(s, d), Lost(s, d), s.h.injected[d]) {
      forall i | 0 <= i < |s.mb| ensures Local(s, d, i) == [] {
        assert InHand(s.hand[i]) + s.mb[i] == [];
      }
      EmptyCat(Holdings(s, d));
    }
  }

  /** Worker i joins the set a. */
  lemma Joins(a: set<nat>, o: set<nat>, i: nat)
    requires i !in a && i !in o
    ensures |(a + {i}) - o| == |a - o| + 1
  {
    assert (a + {i}) - o == (a - o) + {i};
  }

  /** Worker i leaves the set a, and the part o of it. */
  lemma Leaves(a: set<nat>, o: set<nat>, i: nat)
    requires i in a
    ensures i in o ==> |o| == |o - {i}| + 1 && (a - {i}) - (o - {i}) == a - o
    ensures i !in o ==> |a - o| == |(a - {i}) - o| + 1
  {
    if i in o {
      assert o == (o - {i}) + {i};
    } else {
      assert a - o == ((a - {i}) - o) + {i};
    }
  }

  lemma ForwardOwing(s: State, me: nat)
    requires Shape(s) && Enabled(s, Forward(me))
    ensures me !in Owing(s)
    ensures Owing(Step(s, Forward(me)))
            == if HasNeighbour(s, me) && Full(s, Target(me, s.hand[me].msg.dir)) then Owing(s) + {me} else Owing(s)
  {
  }

  lemma RefusedBooks(s: State, me: nat)
    requires Shape(s) && FlagBooks(s) && Enabled(s, Forward(me))
    ensures FlagBooks(Step(s, Forward(me)))
  {
    hide Owing;
    ForwardOwing(s, me);
    Joins(Owing(s), s.h.overdue, me);
  }

  lemma RaiseOwing(s: State, me: nat)
    requires Shape(s) && Enabled(s, Raise(me))
    ensures me in Owing(s) && Owing(Step(s, Raise(me))) == Owing(s) - {me}
  {
  }

  lemma RaiseBooks(s: State, me: nat)
    requires Shape(s) && FlagBooks(s) && Enabled(s, Raise(me))
    ensures FlagBooks(Step(s, Raise(me)))
  {
    hide Owing;
    RaiseOwing(s, me);
    Leaves(Owing(s), s.h.overdue, me);
  }

  lemma OthersOwing(s: State, a: Action)
    requires Shape(s) && Enabled(s, a) && !a.Forward? && !a.Raise?
    ensures Owing(Step(s, a)) == Owing(s)
  {
  }

  lemma BooksKept(s: State, a: Action)
    requires Shape(s) && FlagBooks(s) && Enabled(s, a)
    ensures FlagBooks(Step(s, a))
  {
    hide Owing;
    match a {
      case Forward(me) => RefusedBooks(s, me);
      case Raise(me) => RaiseBooks(s, me);
      case _ =>
        OthersOwing(s, a);
        assert Owing(s) - Owing(s) == {};
    }
  }

  lemma StepInv(s: State, a: Action)
    requires Inv(s) && Enabled(s, a)
    ensures Inv(Step(s, a))
  {
    hide Accounted, Step, Changed, FlagBooks;
    StepShape(s, a);
    BooksKept(s, a);
    forall d: Direction
      ensures Accounted(Stream(Step(s, a), d), Lost(Step(s, a), d), Step(s, a).h.injected[d])
    {
      var c := StepChange(s, a, d);
      ChangeAccounted(s, Step(s, a), d, c);
    }
  }

  ghost predicate Justified(states: seq<State>, actions: seq<Action>, i: nat)
    requires i <= |actions| < |states|
  {
    if i == 0 then Init(states[0])
    else
      && Shape(states[i - 1]) && Enabled(states[i - 1], actions[i - 1])
      && states[i] == Step(states[i - 1], actions[i - 1])
  }

  ghost predicate IsRun(states: seq<State>, actions: seq<Action>) {
    && |states| == |actions| + 1
    && forall i :: 0 <= i <= |actions| ==> Justified(states, actions, i)
  }

  ghost predicate Reachable(s: State) {
    exists states, actions :: IsRun(states, actions) && s == states[|actions|]
  }

  lemma {:induction false} RunInv(states: seq<State>, actions: seq<Action>, i: nat)
    requires IsRun(states, actions) && i <= |actions|
    ensures Inv(states[i])
  {
    assert Justified(states, actions, i);
    if i == 0 {
      InitInv(states[0]);
    } else {
      RunInv(states, actions, i - 1);
      StepInv(states[i - 1], actions[i - 1]);
    }
  }

  lemma ReachableInv(s: State)
    requires Reachable(s)
    ensures Inv(s)
  {
    var states, actions :| IsRun(states, actions) && s == states[|actions|];
    RunInv(states, actions, |actions|);
  }

  lemma InitReachable(s: State)
    requires Init(s)
    ensures Reachable(s)
  {
    assert Justified([s], [], 0);
    assert IsRun([s], []);
  }

  lemma ReachableStep(s: State, a: Action)
    requires Reachable(s) && Shape(s) && Enabled(s, a)
    ensures Reachable(Step(s, a))
  {
    var states, actions :| IsRun(states, actions) && s == states[|actions|];
    var states', actions' := states + [Step(s, a)], actions + [a];
    forall i | 0 <= i <= |actions'| ensures Justified(states', actions', i) {
      assert i <= |actions| ==> Justified(states, actions, i);
    }
    assert IsRun(states', actions');
  }

  /**
   * No overtaking: the surviving messages of a direction leave the chain in the order of injection, and
   * whatever has left was injected before whatever is still inside, despite the opposing traffic.
   */
  lemma NoOvertaking(s: State, d: Direction)
    requires Reachable(s)
    ensures Shape(s) && Increasing(Of(s.h.exited, d)) && Increasing(Cat(Holdings(s, d)))
    ensures forall i, j :: 0 <= i < |Of(s.h.exited, d)| && 0 <= j < |Cat(Holdings(s, d))|
                           ==> Of(s.h.exited, d)[i] < Cat(Holdings(s, d))[j]
  {
    assert Shape(s) && Accounted(Stream(s, d), Lost(s, d), s.h.injected[d]) by { ReachableInv(s); }
    hide Of, Cat, Holdings, Reachable, Increasing;
    Halves(Of(s.h.exited, d), Cat(Holdings(s, d)));
  }

  lemma Halves(a: seq<nat>, b: seq<nat>)
    requires Increasing(a + b)
    ensures Increasing(a) && Increasing(b)
    ensures forall i, j :: 0 <= i < |a| && 0 <= j < |b| ==> a[i] < b[j]
  {
    assert forall i :: 0 <= i < |a| ==> a[i] == (a + b)[i];
    assert forall j :: 0 <= j < |b| ==> b[j] == (a + b)[|a| + j];
  }

  /** Conservation: every injected message has left, is inside, or was refused, and only one of these. */
  lemma MessagesConserved(s: State, d: Direction)
    requires Reachable(s)
    ensures Shape(s) && |Of(s.h.exited, d)| + |Cat(Holdings(s, d))| + |Of(s.h.refused, d)| == s.h.injected[d]
    ensures forall id: nat :: id < s.h.injected[d]
              ==> ((id in Of(s.h.exited, d) || id in Cat(Holdings(s, d))) <==> id !in Of(s.h.refused, d))
  {
    assert Shape(s) && Accounted(Stream(s, d), Lost(s, d), s.h.injected[d]) by { ReachableInv(s); }
    assert forall id: nat :: id in Stream(s, d) <==> id in Of(s.h.exited, d) || id in Cat(Holdings(s, d));
  }

  /**
   * What the flag says: a post refused since the flag was cleared has had its write, or one refused before
   * has had it since.
   */
  lemma FlagExplained(s: State)
    requires Reachable(s)
    ensures s.saturated <==> s.h.written > 0 || s.h.landed > 0
    ensures s.h.overdue <= Owing(s)
    ensures s.h.refusals == s.h.written + |Owing(s) - s.h.overdue|
    ensures s.h.owing == s.h.landed + |s.h.overdue|
  {
    assert FlagBooks(s) by { ReachableInv(s); }
  }

  /**
   * When no worker was between its post and its write at the clear, and none is now, the flag says exactly
   * that a post has been refused since.
   */
  lemma SaturatedMeansRefused(s: State)
    requires Reachable(s)
    ensures s.h.owing == 0 && Owing(s) == {} ==> (s.saturated <==> s.h.refusals > 0)
    ensures s.h.owing == 0 && s.saturated ==> s.h.refusals > 0
    ensures Owing(s) == {} && s.h.refusals > 0 ==> s.saturated
  {
    assert FlagBooks(s) by { ReachableInv(s); }
  }

  /** The exact states in which the flag and the refusals since the clear disagree. */
  lemma FlagMisleadsExactly(s: State)
    requires Reachable(s)
    ensures s.saturated && s.h.refusals == 0
            <==> s.h.landed > 0 && s.h.written == 0 && Owing(s) == s.h.overdue
    ensures !s.saturated && s.h.refusals > 0
            <==> s.h.landed == 0 && s.h.written == 0 && Owing(s) != s.h.overdue
  {
    assert FlagBooks(s) by { ReachableInv(s); }
    assert Owing(s) == s.h.overdue <==> Owing(s) - s.h.overdue == {};
  }

  /** What has been refused after a message came to mailbox t, if there is such a mailbox. */
  function RefusedAt(s: State, t: int, m: Msg): seq<Msg> {
    if 0 <= t < |s.mb| && |s.mb[t]| == s.capacity then s.h.refused + [m] else s.h.refused
  }

  /** A message is refused exactly when the mailbox it is for holds as many messages as it can. */
  lemma RefusedExactly(s: State, a: Action)
    requires Shape(s) && Enabled(s, a)
    ensures var refused := Step(s, a).h.refused;
            match a
            case Inject(Right) => refused == RefusedAt(s, 0, Msg(Right, s.h.injected[Right]))
            case Inject(Left) => refused == RefusedAt(s, |s.mb| - 1, Msg(Left, s.h.injected[Left]))
            case Forward(me) =>
              var m := s.hand[me].msg;
              refused == RefusedAt(s, if m.dir == Left then me - 1 else me + 1, m)
            case _ => refused == s.h.refused
  {
    if a.Forward? {
      ExitsAtEnds(|s.mb|, a.me, s.hand[a.me].msg.dir);
    }
  }

  // A run of two workers with mailboxes of one message in which the flag misleads.

  function Story(i: nat): Action {
    match i
    case 0 => Inject(Right)
    case 1 => Inject(Left)
    case 2 => Fetch(0)
    case 3 => Forward(0)
    case 4 => Reset
    case _ => Raise(0)
  }

  function Scene(a: seq<Msg>, b: seq<Msg>, hand: Hand, saturated: bool, h: History): State {
    State([a, b], [hand, Empty], 1, saturated, h)
  }

  /** Before step i of the story. */
  function Told(i: nat): State {
    var r, l := Msg(Right, 0), Msg(Left, 0);
    var one := NO_HISTORY.(injected := map[Left := 0, Right := 1]);
    var two := NO_HISTORY.(injected := map[Left := 1, Right := 1]);
    var refused := two.(refused := [r], refusals := 1);
    match i
    case 0 => Scene([], [], Empty, false, NO_HISTORY)
    case 1 => Scene([r], [], Empty, false, one)
    case 2 => Scene([r], [l], Empty, false, two)
    case 3 => Scene([], [l], Holding(r), false, two)
    case 4 => Scene([], [l], Refused, false, refused)
    case 5 => Scene([], [l], Refused, false, refused.(refusals := 0, owing := 1, overdue := {0}))
    case _ => Scene([], [l], Empty, true, refused.(refusals := 0, landed := 1, owing := 1))
  }

  lemma BothDirections(m: map<Direction, nat>)
    requires Left in m && Right in m
    ensures forall d: Direction :: d in m
  {
    forall d: Direction ensures d in m {
      match d { case Left => case Right => }
    }
  }

  lemma StoryShape(i: nat)
    ensures Shape(Told(i))
  {
    BothDirections(Told(i).h.injected);
  }

  lemma StoryBegins(i: nat)
    requires i < 3 && Shape(Told(i))
    ensures Enabled(Told(i), Story(i)) && Step(Told(i), Story(i)) == Told(i + 1)
  {
    var s' := Step(Told(i), Story(i));
    assert s'.mb[0] == Told(i + 1).mb[0] && s'.mb[1] == Told(i + 1).mb[1];
    assert s'.mb == Told(i + 1).mb && s'.hand == Told(i + 1).hand;
    assert s'.h.injected == Told(i + 1).h.injected;
  }

  lemma StoryEnds(i: nat)
    requires 3 <= i < 6 && Shape(Told(i))
    ensures Enabled(Told(i), Story(i)) && Step(Told(i), Story(i)) == Told(i + 1)
  {
    hide Owing;
    var s' := Step(Told(i), Story(i));
    assert s'.hand == Told(i + 1).hand;
    if i == 3 {
      assert s'.h.refused == Told(4).h.refused;
    } else if i == 4 {
      OneOwing(Told(4));
    } else {
      assert s'.h.overdue == {};
    }
  }

  lemma OneOwing(s: State)
    requires |s.hand| == 2 && s.hand[0].Refused? && !s.hand[1].Refused?
    ensures Owing(s) == {0}
  {
  }

  lemma {:induction false} StoryReachable(i: nat)
    requires i <= 6
    ensures Reachable(Told(i))
  {
    if i == 0 {
      StoryShape(0);
      InitReachable(Told(0));
    } else {
      hide Reachable;
      StoryReachable(i - 1);
      StoryShape(i - 1);
      if i <= 3 { StoryBegins(i - 1); } else { StoryEnds(i - 1); }
      ReachableStep(Told(i - 1), Story(i - 1));
    }
  }

  /**
   * A worker writes the flag some time after its post.  So a post may have been refused with the flag still
   * clear, and the flag may be set although none has been refused since it was cleared.
   */
  lemma FlagCanMislead()
    ensures exists s :: Reachable(s) && !s.saturated && s.h.refusals > 0
    ensures exists s :: Reachable(s) && s.saturated && s.h.refusals == 0
  {
    StoryReachable(4);
    StoryReachable(6);
    assert !Told(4).saturated && Told(4).h.refusals > 0;
    assert Told(6).saturated && Told(6).h.refusals == 0;
  }
}
