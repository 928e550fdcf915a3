/**
 * The IRQ storm chain: worker threads pass messages to their neighbours through bounded mailboxes, while
 * two timer interrupts inject right-moving messages at one end and left-moving ones at the other.
 */
module IrqStorm {
  datatype Direction = Left | Right

  /** A message is only its direction; the number tells equal messages apart, in the order of injection. */
  datatype Msg = Msg(dir: Direction, id: nat)

  /** Where a worker stands in its loop. */
  datatype Hand =
    | Empty                      // before chMBFetchTimeout
    | Holding(msg: Msg)          // before chMBPostTimeout, or the exit
    | Refused                    // the post has failed, the flag is not yet written

  datatype State = State(
    mb: seq<seq<Msg>>,           // mailboxes, oldest message first
    hand: seq<Hand>,             // the workers
    capacity: nat,
    saturated: bool,
    h: History)

  /** What has happened so far; no step depends on it. */
  datatype History = History(
    injected: map<Direction, nat>,
    exited: seq<Msg>,
    refused: seq<Msg>,
    // Since the flag was cleared:
    refusals: nat,               // posts refused
    written: nat,                // of which have written the flag
    landed: nat,                 // writes for posts refused before
    owing: nat,                  // workers that had still to write the flag when it was cleared
    overdue: set<nat>)           // of which still have

  datatype Action = Inject(d: Direction) | Fetch(me: nat) | Forward(me: nat) | Raise(me: nat) | Reset

  /** One more than the largest value of the C type unsigned. */
  const WORD: nat := 0x1_0000_0000

  /** The neighbour to send to, computed in unsigned arithmetic. */
  function Target(me: nat, d: Direction): nat {
    if d.Left? then (me + WORD - 1) % WORD else (me + 1) % WORD
  }

  predicate Shape(s: State) {
    && 1 <= |s.mb| < WORD && |s.hand| == |s.mb| && s.capacity >= 1
    && (forall d: Direction :: d in s.h.injected)
    && (forall i :: 0 <= i < |s.mb| ==> |s.mb[i]| <= s.capacity)
  }

  const NO_HISTORY := History(map[Left := 0, Right := 0], [], [], 0, 0, 0, 0, {})

  predicate Init(s: State) {
    && Shape(s) && !s.saturated && s.h == NO_HISTORY
    && (forall i :: 0 <= i < |s.mb| ==> s.mb[i] == [] && s.hand[i] == Empty)
  }

  predicate Enabled(s: State, a: Action) {
    match a
    case Inject(d) => true
    case Fetch(me) => me < |s.mb| == |s.hand| && s.hand[me].Empty? && s.mb[me] != []
    case Forward(me) => me < |s.mb| == |s.hand| && s.hand[me].Holding?
    case Raise(me) => me < |s.mb| == |s.hand| && s.hand[me].Refused?
    case Reset => true
  }

  predicate Full(s: State, t: nat)
    requires t < |s.mb|
  {
    |s.mb[t]| >= s.capacity
  }

  /** A post that does not wait: a full mailbox refuses the message. */
  function Post(s: State, t: nat, m: Msg): State
    requires t < |s.mb|
  {
    if Full(s, t) then s.(h := s.h.(refused := s.h.refused + [m], refusals := s.h.refusals + 1))
    else s.(mb := s.mb[t := s.mb[t] + [m]])
  }

  function Entrance(s: State, d: Direction): nat
    requires |s.mb| > 0
  {
    if d.Left? then |s.mb| - 1 else 0
  }

  /** The workers that have still to write the flag. */
  function Owing(s: State): set<nat> {
    set i: nat | i < |s.hand| && s.hand[i].Refused?
  }

  function WithHand(s: State, me: nat, hand: Hand): State
    requires me < |s.hand|
  {
    s.(hand := s.hand[me := hand])
  }

  /** An interrupt posts and writes the flag in one critical section. */
  function Injected(s: State, d: Direction): State
    requires Shape(s)
  {
    var t, n := Entrance(s, d), s.h.injected[d];
    var s1 := Post(s, t, Msg(d, n));
    var s2 := s1.(h := s1.h.(injected := s1.h.injected[d := n + 1]));
    if Full(s, t) then s2.(saturated := true, h := s2.h.(written := s2.h.written + 1)) else s2
  }

  /** A worker posts in one critical section; the flag has to wait for the next step. */
  function Forwarded(s: State, me: nat): State
    requires Shape(s) && Enabled(s, Forward(me))
  {
    var m := s.hand[me].msg;
    var t := Target(me, m.dir);
    if t < |s.mb| then Post(WithHand(s, me, if Full(s, t) then Refused else Empty), t, m)
    else WithHand(s, me, Empty).(h := s.h.(exited := s.h.exited + [m]))
  }

  /** The write of the flag, for a post that may have been refused before the flag was cleared. */
  function Raised(s: State, me: nat): State
    requires Shape(s) && Enabled(s, Raise(me))
  {
    WithHand(s, me, Empty).(saturated := true,
      h := if me in s.h.overdue then s.h.(landed := s.h.landed + 1, overdue := s.h.overdue - {me})
           else s.h.(written := s.h.written + 1))
  }

  function Step(s: State, a: Action): State
    requires Shape(s) && Enabled(s, a)
  {
    match a
    case Inject(d) => Injected(s, d)
    case Fetch(me) => WithHand(s, me, Holding(s.mb[me][0])).(mb := s.mb[me := s.mb[me][1..]])
    case Forward(me) => Forwarded(s, me)
    case Raise(me) => Raised(s, me)
    case Reset =>
      s.(saturated := false,
         h := s.h.(refusals := 0, written := 0, landed := 0, owing := |Owing(s)|, overdue := Owing(s)))
  }

  /** The unsigned wrap sends messages out of the chain exactly at its two ends. */
  lemma ExitsAtEnds(n: nat, me: nat, d: Direction)
    requires me < n < WORD
    ensures Target(me, d) >= n <==> me == (if d.Left? then 0 else n - 1)
    ensures Target(me, d) < n ==> Target(me, d) == (if d.Left? then me - 1 else me + 1)
  {
  }

  // The stream of a direction: its messages from the exit back to the entrance.

  /** The worker that a message of direction d reaches after k hops. */
  function At(n: nat, d: Direction, k: nat): nat
    requires k < n
  {
    if d.Left? then n - 1 - k else k
  }

  /** The numbers of the messages of one direction. */
  function Of(q: seq<Msg>, d: Direction): seq<nat> {
    if q == [] then [] else (if q[0].dir == d then [q[0].id] else []) + Of(q[1..], d)
  }

  function InHand(h: Hand): seq<Msg> {
    if h.Holding? then [h.msg] else []
  }

  /** What worker i has of direction d, the oldest first. */
  function Local(s: State, d: Direction, i: nat): seq<nat>
    requires Shape(s) && i < |s.mb|
  {
    Of(InHand(s.hand[i]) + s.mb[i], d)
  }

  /** What each hop of a chain holds, put together with the furthest first. */
  function Cat(hops: seq<seq<nat>>): seq<nat> {
    if hops == [] then [] else Cat(hops[1..]) + hops[0]
  }

  /** The holdings of direction d by the number of hops made. */
  function Holdings(s: State, d: Direction): seq<seq<nat>>
    requires Shape(s)
  {
    seq(|s.mb|, k requires 0 <= k < |s.mb| => Local(s, d, At(|s.mb|, d, k)))
  }

  function Stream(s: State, d: Direction): seq<nat>
    requires Shape(s)
  {
    Of(s.h.exited, d) + Cat(Holdings(s, d))
  }

  lemma {:induction false} CatSum(a: seq<seq<nat>>, b: seq<seq<nat>>)
    ensures Cat(a + b) == Cat(b) + Cat(a)
  {
    if a == [] {
      assert a + b == b;
    } else {
      assert (a + b)[0] == a[0] && (a + b)[1..] == a[1..] + b;
      CatSum(a[1..], b);
    }
  }

  /** A chain around one of its hops. */
  lemma CatAround(c: seq<seq<nat>>, k: nat)
    requires k < |c|
    ensures Cat(c) == Cat(c[k + 1..]) + c[k] + Cat(c[..k])
  {
    assert c == c[..k] + c[k..];
    CatSum(c[..k], c[k..]);
    assert c[k..][1..] == c[k + 1..];
  }

  /** A message passed from the head of a hop to the tail of the next one keeps its place. */
  lemma CatHandOver(c: seq<seq<nat>>, k: nat, x: nat, rest: seq<nat>)
    requires k + 1 < |c| && c[k] == [x] + rest
    ensures Cat(c[k := rest][k + 1 := c[k + 1] + [x]]) == Cat(c)
  {
    var c' := c[k := rest][k + 1 := c[k + 1] + [x]];
    CatAround(c, k);
    CatAround(c', k);
    var u, v := c[k + 1..], c'[k + 1..];
    assert u[1..] == v[1..] && c[..k] == c'[..k];
    assert Cat(v) == Cat(u) + [x];
    assert Cat(u) + ([x] + rest) == Cat(u) + [x] + rest;
  }

  lemma {:induction false} OfSum(a: seq<Msg>, b: seq<Msg>, d: Direction)
    ensures Of(a + b, d) == Of(a, d) + Of(b, d)
  {
    if a == [] {
      assert a + b == b;
    } else {
      assert (a + b)[0] == a[0] && (a + b)[1..] == a[1..] + b;
      OfSum(a[1..], b, d);
    }
  }

  lemma OfOne(m: Msg, d: Direction)
    ensures Of([m], d) == if m.dir == d then [m.id] else []
  {
    assert [m][1..] == [];
  }

  /** The number of hops a message at worker i has made. */
  function Hops(n: nat, d: Direction, i: nat): nat
    requires i < n
  {
    if d.Left? then n - 1 - i else i
  }

  /** What worker i has after its hand is emptied, or after a message is put into its mailbox. */
  lemma LocalChanges(s: State, i: nat, d: Direction, m: Msg)
    requires Shape(s) && i < |s.mb|
    ensures s.hand[i] == Holding(m) ==> Local(s, d, i) == Of([m], d) + Of(s.mb[i], d)
    ensures !s.hand[i].Holding? ==> Local(s, d, i) == Of(s.mb[i], d)
    ensures Of(InHand(s.hand[i]) + (s.mb[i] + [m]), d) == Local(s, d, i) + Of([m], d)
  {
    OfSum([m], s.mb[i], d);
    OfSum(InHand(s.hand[i]) + s.mb[i], [m], d);
    assert InHand(s.hand[i]) + (s.mb[i] + [m]) == InHand(s.hand[i]) + s.mb[i] + [m];
    assert [] + s.mb[i] == s.mb[i];
  }

  /** The refused messages of a direction. */
  function Lost(s: State, d: Direction): seq<nat> {
    Of(s.h.refused, d)
  }

  /** How one step can change what is known about a direction. */
  datatype Change = Same | Entered | TurnedAway | Dropped(before: seq<nat>, x: nat, after: seq<nat>)

  predicate Changed(s: State, s': State, d: Direction, c: Change)
    requires Shape(s) && Shape(s')
  {
    var next := s.h.injected[d];
    match c
    case Same => Stream(s', d) == Stream(s, d) && Lost(s', d) == Lost(s, d) && s'.h.injected[d] == next
    case Entered => Stream(s', d) == Stream(s, d) + [next] && Lost(s', d) == Lost(s, d) && s'.h.injected[d] == next + 1
    case TurnedAway =>
      && Stream(s', d) == Stream(s, d)
      && Lost(s', d) == Lost(s, d) + [next] && s'.h.injected[d] == next + 1
    case Dropped(u, x, v) =>
      && Stream(s, d) == u + [x] + v && Stream(s', d) == u + v
      && Lost(s', d) == Lost(s, d) + [x] && s'.h.injected[d] == next
  }

  lemma StepShape(s: State, a: Action)
    requires Shape(s) && Enabled(s, a)
    ensures Shape(Step(s, a)) && |Step(s, a).mb| == |s.mb|
  {
  }

  /** The holdings are in the mailboxes and in the workers' hands. */
  lemma SameHoldings(s: State, s': State, d: Direction)
    requires Shape(s) && Shape(s') && s.mb == s'.mb
    requires forall i :: 0 <= i < |s.mb| ==> InHand(s.hand[i]) == InHand(s'.hand[i])
    ensures Holdings(s, d) == Holdings(s', d)
  {
    assert forall i: nat :: i < |s.mb| ==> Local(s, d, i) == Local(s', d, i);
  }

  /** A post changes what the receiver has, by the message and only if there is room. */
  lemma PostLocal(s: State, t: nat, m: Msg, d: Direction, i: nat)
    requires Shape(s) && t < |s.mb| && i < |s.mb|
    ensures var s' := Post(s, t, m);
            && Shape(s') && |s'.mb| == |s.mb|
            && Local(s', d, i) == (if i == t && !Full(s, t) then Local(s, d, i) + Of([m], d) else Local(s, d, i))
  {
    hide Of;
    LocalChanges(s, t, d, m);
  }

  lemma PostHoldings(s: State, t: nat, m: Msg, d: Direction)
    requires Shape(s) && t < |s.mb|
    ensures var s', h, k := Post(s, t, m), Holdings(s, d), Hops(|s.mb|, d, t);
            && Shape(s') && |s'.mb| == |s.mb|
            && Holdings(s', d) == (if m.dir == d && !Full(s, t) then h[k := h[k] + [m.id]] else h)
            && Lost(s', d) == (if m.dir == d && Full(s, t) then Lost(s, d) + [m.id] else Lost(s, d))
  {
    hide Of, Local;
    var s', h, k := Post(s, t, m), Holdings(s, d), Hops(|s.mb|, d, t);
    OfSum(s.h.refused, [m], d);
    OfOne(m, d);
    PostLocal(s, t, m, d, t);
    forall j | 0 <= j < |s.mb|
      ensures Holdings(s', d)[j] == (if j == k && m.dir == d && !Full(s, t) then h[j] + [m.id] else h[j])
    {
      PostLocal(s, t, m, d, At(|s.mb|, d, j));
    }
  }

  lemma InjectChange(s: State, e: Direction, d: Direction) returns (c: Change)
    requires Shape(s)
    ensures Shape(Step(s, Inject(e))) && Changed(s, Step(s, Inject(e)), d, c)
  {
    hide Of, Cat, Local;
    var i, m := Entrance(s, e), Msg(e, s.h.injected[e]);
    PostHoldings(s, i, m, d);
    SameHoldings(Step(s, Inject(e)), Post(s, i, m), d);
    if e != d {
      c := Same;
    } else if !Full(s, i) {
      FirstHopGains(Of(s.h.exited, d), Holdings(s, d), m.id);
      c := Entered;
    } else {
      c := TurnedAway;
    }
  }

  lemma FirstHopGains(out: seq<nat>, h: seq<seq<nat>>, x: nat)
    requires h != []
    ensures out + Cat(h[0 := h[0] + [x]]) == out + Cat(h) + [x]
  {
    assert h[0 := h[0] + [x]][1..] == h[1..];
  }

  lemma FetchChange(s: State, me: nat, d: Direction)
    requires Shape(s) && Enabled(s, Fetch(me))
    ensures Shape(Step(s, Fetch(me))) && Changed(s, Step(s, Fetch(me)), d, Same)
  {
    var s' := Step(s, Fetch(me));
    assert InHand(s.hand[me]) + s.mb[me] == InHand(s'.hand[me]) + s'.mb[me];
    assert Holdings(s', d) == Holdings(s, d);
  }

  lemma RaiseChange(s: State, me: nat, d: Direction)
    requires Shape(s) && Enabled(s, Raise(me))
    ensures Shape(Step(s, Raise(me))) && Changed(s, Step(s, Raise(me)), d, Same)
  {
    SameHoldings(s, Step(s, Raise(me)), d);
  }

  /** Taking the message out of a worker's hand. */
  lemma HandLocal(s: State, me: nat, hand: Hand, d: Direction, i: nat)
    requires Shape(s) && Enabled(s, Forward(me)) && !hand.Holding? && i < |s.mb|
    ensures Shape(WithHand(s, me, hand))
    ensures Local(WithHand(s, me, hand), d, i)
            == (if i == me && s.hand[me].msg.dir == d then Of(s.mb[me], d) else Local(s, d, i))
    ensures s.hand[me].msg.dir == d ==> Local(s, d, me) == [s.hand[me].msg.id] + Of(s.mb[me], d)
  {
    LocalChanges(s, me, d, s.hand[me].msg);
    OfOne(s.hand[me].msg, d);
    assert [] + s.mb[me] == s.mb[me];
    assert [] + Of(s.mb[me], d) == Of(s.mb[me], d);
  }

  lemma EmptyHand(s: State, me: nat, hand: Hand, d: Direction)
    requires Shape(s) && Enabled(s, Forward(me)) && !hand.Holding?
    ensures var s', m, h, k := WithHand(s, me, hand), s.hand[me].msg, Holdings(s, d), Hops(|s.mb|, d, me);
            && Shape(s')
            && Holdings(s', d) == (if m.dir == d then h[k := Of(s.mb[me], d)] else h)
            && (m.dir == d ==> h[k] == [m.id] + Of(s.mb[me], d))
  {
    hide Of, Local;
    var h, h1 := Holdings(s, d), Holdings(WithHand(s, me, hand), d);
    var k := Hops(|s.mb|, d, me);
    HandLocal(s, me, hand, d, me);
    forall j | 0 <= j < |s.mb|
      ensures h1[j] == (if j == k && s.hand[me].msg.dir == d then Of(s.mb[me], d) else h[j])
    {
      HandLocal(s, me, hand, d, At(|s.mb|, d, j));
    }
  }

  lemma NextHop(n: nat, me: nat, d: Direction)
    requires me < n < WORD && Target(me, d) < n
    ensures Hops(n, d, Target(me, d)) == Hops(n, d, me) + 1
  {
    ExitsAtEnds(n, me, d);
  }

  /** The neighbour that worker me has to send to, if there is one. */
  predicate HasNeighbour(s: State, me: nat)
    requires Shape(s) && Enabled(s, Forward(me))
  {
    Target(me, s.hand[me].msg.dir) < |s.mb|
  }

  lemma PassHoldings(s: State, me: nat, d: Direction)
    requires Shape(s) && Enabled(s, Forward(me)) && HasNeighbour(s, me)
    requires !Full(s, Target(me, s.hand[me].msg.dir))
    ensures var s', m, h, k := Step(s, Forward(me)), s.hand[me].msg, Holdings(s, d), Hops(|s.mb|, d, me);
            && Shape(s') && Lost(s', d) == Lost(s, d)
            && (m.dir == d ==> && k + 1 < |h| && h[k] == [m.id] + Of(s.mb[me], d)
                               && Holdings(s', d) == h[k := Of(s.mb[me], d)][k + 1 := h[k + 1] + [m.id]])
            && (m.dir != d ==> Holdings(s', d) == h)
  {
    hide Of, Local;
    var m := s.hand[me].msg;
    EmptyHand(s, me, Empty, d);
    NextHop(|s.mb|, me, m.dir);
    PostHoldings(WithHand(s, me, Empty), Target(me, m.dir), m, d);
  }

  /** A message that the neighbour has room for. */
  lemma ForwardPosts(s: State, me: nat, d: Direction)
    requires Shape(s) && Enabled(s, Forward(me)) && HasNeighbour(s, me)
    requires !Full(s, Target(me, s.hand[me].msg.dir))
    ensures Shape(Step(s, Forward(me))) && Changed(s, Step(s, Forward(me)), d, Same)
  {
    hide Of, Cat;
    var s' := Step(s, Forward(me));
    PassHoldings(s, me, d);
    assert Cat(Holdings(s', d)) == Cat(Holdings(s, d)) by {
      if s.hand[me].msg.dir == d {
        CatHandOver(Holdings(s, d), Hops(|s.mb|, d, me), s.hand[me].msg.id, Of(s.mb[me], d));
      }
    }
  }

  /** A message that the neighbour refuses. */
  lemma ForwardRefused(s: State, me: nat, d: Direction) returns (c: Change)
    requires Shape(s) && Enabled(s, Forward(me)) && HasNeighbour(s, me)
    requires Full(s, Target(me, s.hand[me].msg.dir))
    ensures Shape(Step(s, Forward(me))) && Changed(s, Step(s, Forward(me)), d, c)
  {
    hide Of, Cat, Local;
    var m, t := s.hand[me].msg, Target(me, s.hand[me].msg.dir);
    EmptyHand(s, me, Refused, d);
    PostHoldings(WithHand(s, me, Refused), t, m, d);
    if m.dir == d {
      c := CutOut(Of(s.h.exited, d), Holdings(s, d), Hops(|s.mb|, d, me), m.id, Of(s.mb[me], d));
    } else {
      c := Same;
    }
  }

  lemma ExitHoldings(s: State, me: nat, d: Direction)
    requires Shape(s) && Enabled(s, Forward(me)) && !HasNeighbour(s, me)
    ensures var s', m, h, k := Step(s, Forward(me)), s.hand[me].msg, Holdings(s, d), Hops(|s.mb|, d, me);
            && Shape(s') && Lost(s', d) == Lost(s, d)
            && (m.dir == d ==> && k == |h| - 1 && h[k] == [m.id] + Of(s.mb[me], d)
                               && Holdings(s', d) == h[k := Of(s.mb[me], d)]
                               && Of(s'.h.exited, d) == Of(s.h.exited, d) + [m.id])
            && (m.dir != d ==> Holdings(s', d) == h && Of(s'.h.exited, d) == Of(s.h.exited, d))
  {
    hide Of, Local;
    var m := s.hand[me].msg;
    EmptyHand(s, me, Empty, d);
    SameHoldings(Step(s, Forward(me)), WithHand(s, me, Empty), d);
    ExitsAtEnds(|s.mb|, me, m.dir);
    OfSum(s.h.exited, [m], d);
    OfOne(m, d);
  }

  /** A message that leaves the chain. */
  lemma ForwardExits(s: State, me: nat, d: Direction)
    requires Shape(s) && Enabled(s, Forward(me)) && !HasNeighbour(s, me)
    ensures Shape(Step(s, Forward(me))) && Changed(s, Step(s, Forward(me)), d, Same)
  {
    hide Of, Cat, Holdings;
    ExitHoldings(s, me, d);
    if s.hand[me].msg.dir == d {
      LastHopLeaves(Of(s.h.exited, d), Holdings(s, d), s.hand[me].msg.id, Of(s.mb[me], d));
    }
  }

  lemma CutOut(out: seq<nat>, h: seq<seq<nat>>, k: nat, x: nat, rest: seq<nat>) returns (c: Change)
    requires k < |h| && h[k] == [x] + rest
    ensures c.Dropped? && c.x == x
    ensures out + Cat(h) == c.before + [x] + c.after
    ensures out + Cat(h[k := rest]) == c.before + c.after
  {
    var h' := h[k := rest];
    CatAround(h, k);
    CatAround(h', k);
    assert h'[k + 1..] == h[k + 1..] && h'[..k] == h[..k];
    var ahead, behind := Cat(h[k + 1..]), Cat(h[..k]);
    assert out + (ahead + ([x] + rest) + behind) == (out + ahead) + [x] + (rest + behind);
    assert out + (ahead + rest + behind) == (out + ahead) + (rest + behind);
    c := Dropped(out + ahead, x, rest + behind);
  }

  lemma LastHopLeaves(out: seq<nat>, h: seq<seq<nat>>, x: nat, rest: seq<nat>)
    requires h != [] && h[|h| - 1] == [x] + rest
    ensures out + [x] + Cat(h[|h| - 1 := rest]) == out + Cat(h)
  {
    var k := |h| - 1;
    var h' := h[k := rest];
    CatAround(h, k);
    CatAround(h', k);
    assert h'[..k] == h[..k] && Cat(h[k + 1..]) == [] && Cat(h'[k + 1..]) == [];
    assert [x] + rest + Cat(h[..k]) == [x] + (rest + Cat(h[..k]));
  }

  lemma StepChange(s: State, a: Action, d: Direction) returns (c: Change)
    requires Shape(s) && Enabled(s, a)
    ensures Shape(Step(s, a)) && Changed(s, Step(s, a), d, c)
  {
    c := Same;
    match a
    case Inject(e) => c := InjectChange(s, e, d);
    case Fetch(me) => FetchChange(s, me, d);
    case Forward(me) =>
      if !HasNeighbour(s, me) {
        ForwardExits(s, me, d);
      } else if Full(s, Target(me, s.hand[me].msg.dir)) {
        c := ForwardRefused(s, me, d);
      } else {
        ForwardPosts(s, me, d);
      }
    case Raise(me) => RaiseChange(s, me, d);
    case Reset => SameHoldings(s, Step(s, a), d);
  }
}
