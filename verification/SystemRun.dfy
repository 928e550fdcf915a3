/**
 * The whole tracker: the board monitor samples the ignition, posts to a bounded mailbox, the system thread
 * fetches from it and starts or stops the GPS reader, and the GPS thread polls the modem.
 */
module SystemRun {
  import opened Debounce

  const MAILBOX_SIZE: nat := 10

  datatype SystemState = SystemInit | SystemParking | SystemRiding | SystemTracking

  datatype Event = IgnitionOn | IgnitionOff

  /** Where the system thread stands. */
  datatype SystemPc =
    | Fetching
    | Handling(evt: Event)
    | Connecting       // connectModem
    | PoweringOn       // GpsReaderStart, in gpsPowerOn: uses the static command
    | Arming           // GpsReaderStart, before its critical section
    | Started          // GpsReaderStart done, before the new state is stored
    | Stopping         // GpsReaderStop, before its critical section
    | PoweringOff      // GpsReaderStop, in gpsPowerOff: uses the static command
    | Disconnecting    // disconnectModem

  /** Where the GPS thread stands. */
  datatype GpsPc =
    | AwaitingSem
    | Polling          // uses the static command

  datatype State = State(
    usb: seq<bool>,            // ignition samples so far
    mailbox: seq<Event>,
    sys: SystemPc,
    state: SystemState,
    gps: GpsPc,
    gpsSem: nat,
    gpsTimer: bool,
    fetched: seq<Event>,       // events the system thread has taken
    starts: nat,               // runs of GpsReaderStart
    stops: nat,                // runs of GpsReaderStop
    ticks: nat,                // expiries of the GPS timer
    polls: nat)                // turns of the GPS thread

  datatype Action =
    | Sample(high: bool) | Fetch | Dispatch
    | TryConnect(connected: bool) | TryPowerOn(ok: bool) | Arm | Ride
    | Disarm | TryPowerOff(ok: bool) | TryDisconnect(connected: bool)
    | GpsTimer | GpsTake | GpsDone

  function Message(e: Edge): seq<Event> {
    match e
    case NoEdge => []
    case On => [IgnitionOn]
    case Off => [IgnitionOff]
  }

  predicate Init(s: State) {
    s == State([], [], Fetching, SystemInit, AwaitingSem, 0, false, [], 0, 0, 0, 0)
  }

  predicate Enabled(s: State, a: Action) {
    match a
    case Sample(high) => true
    case Fetch => s.sys.Fetching? && s.mailbox != []
    case Dispatch => s.sys.Handling?
    case TryConnect(connected) => s.sys.Connecting?
    case TryPowerOn(ok) => s.sys.PoweringOn?
    case Arm => s.sys.Arming?
    case Ride => s.sys.Started?
    case Disarm => s.sys.Stopping?
    case TryPowerOff(ok) => s.sys.PoweringOff?
    case TryDisconnect(connected) => s.sys.Disconnecting?
    case GpsTimer => s.gpsTimer
    case GpsTake => s.gps.AwaitingSem? && s.gpsSem > 0
    case GpsDone => s.gps.Polling?
  }

  /** chMBPostI: a full mailbox drops the event. */
  function Posted(mailbox: seq<Event>, m: seq<Event>): seq<Event> {
    if |mailbox| < MAILBOX_SIZE then mailbox + m else mailbox
  }

  function Step(s: State, a: Action): State
    requires Enabled(s, a)
  {
    match a
    case Sample(high) =>
      var usb := s.usb + [high];
      s.(usb := usb, mailbox := Posted(s.mailbox, Message(EdgeAt(usb))))
    case Fetch =>
      s.(sys := Handling(s.mailbox[0]), mailbox := s.mailbox[1..], fetched := s.fetched + [s.mailbox[0]])
    case Dispatch =>
      if !s.state.SystemInit? then s.(sys := Fetching)
      else if s.sys.evt.IgnitionOn? then s.(sys := Connecting)
      else s.(sys := Stopping, stops := s.stops + 1)
    case TryConnect(connected) =>
      if connected then s.(sys := PoweringOn, starts := s.starts + 1) else s
    case TryPowerOn(ok) =>
      if ok then s.(sys := Arming) else s
    case Arm =>
      s.(sys := Started, gpsTimer := true, gpsSem := s.gpsSem + 1)
    case Ride =>
      s.(sys := Fetching, state := SystemRiding)
    case Disarm =>
      s.(sys := PoweringOff, gpsTimer := false)
    case TryPowerOff(ok) =>
      if ok then s.(sys := Disconnecting) else s
    case TryDisconnect(connected) =>
      if connected then s else s.(sys := Fetching, state := SystemParking)
    case GpsTimer =>
      s.(gpsSem := s.gpsSem + 1, ticks := s.ticks + 1)
    case GpsTake =>
      s.(gps := Polling, gpsSem := s.gpsSem - 1, polls := s.polls + 1)
    case GpsDone =>
      s.(gps := AwaitingSem)
  }

  /** The mailbox is a bounded queue; the first signal always gets into it, and so is the first one out. */
  predicate Queue(s: State) {
    var accepted := s.fetched + s.mailbox;
    && |s.mailbox| <= MAILBOX_SIZE
    && |accepted| <= |Edges(s.usb)|
    && (accepted == [] ==> Edges(s.usb) == [])
    && (accepted != [] ==> accepted[0] == IgnitionOn)
  }

  predicate Starting(pc: SystemPc) {
    pc.PoweringOn? || pc.Arming? || pc.Started?
  }

  /** What the system thread has done, by the number of events it has fetched. */
  predicate Phase(s: State) {
    && s.stops == 0
    && match |s.fetched|
       case 0 => s.sys.Fetching? && s.state.SystemInit? && s.starts == 0
       case _ =>
         if s.state.SystemInit?
         then && |s.fetched| == 1
              && (s.sys == Handling(IgnitionOn) || s.sys.Connecting? || Starting(s.sys))
              && s.starts == (if Starting(s.sys) then 1 else 0)
         else s.state.SystemRiding? && s.starts == 1 && (s.sys.Fetching? || s.sys.Handling?)
  }

  /** GpsReaderStart has been through. */
  predicate GpsStarted(s: State) {
    s.sys.Started? || s.state.SystemRiding?
  }

  /**
   * From the end of GpsReaderStart on the timer is armed, and the GPS thread has one turn for the start and one
   * for each expiry; before, it has nothing to do.
   */
  predicate GpsBalance(s: State) {
    && (s.gpsTimer <==> GpsStarted(s))
    && s.gpsSem + s.polls == s.ticks + (if GpsStarted(s) then 1 else 0)
    && (!GpsStarted(s) ==> s.ticks == 0 && s.gps.AwaitingSem?)
  }

  predicate Inv(s: State) {
    Queue(s) && Phase(s) && GpsBalance(s)
  }

  /** The first signal ever is On. */
  lemma FirstSignal(usb: seq<bool>, high: bool)
    ensures var e := EdgeAt(usb + [high]);
            && |Edges(usb + [high])| == |Edges(usb)| + |Message(e)|
            && (Edges(usb) == [] ==> e != Off)
  {
    hide EdgeAt;
    EdgesAlternate(usb + [high]);
    assert (usb + [high])[..|usb|] == usb;
    if Edges(usb) == [] && EdgeAt(usb + [high]) != NoEdge {
      assert Edges(usb + [high])[0] == EdgeAt(usb + [high]);
    }
  }

  lemma SampleKeepsQueue(s: State, high: bool)
    requires Queue(s)
    ensures Queue(Step(s, Sample(high)))
  {
    hide Edges, EdgeAt;
    FirstSignal(s.usb, high);
    var m := Message(EdgeAt(s.usb + [high]));
    assert s.fetched + (s.mailbox + m) == s.fetched + s.mailbox + m;
  }

  lemma QueueKept(s: State, a: Action)
    requires Queue(s) && Enabled(s, a)
    ensures Queue(Step(s, a))
  {
    hide Edges, EdgeAt;
    if a.Sample? {
      SampleKeepsQueue(s, a.high);
    } else if a.Fetch? {
      assert s.fetched + [s.mailbox[0]] + s.mailbox[1..] == s.fetched + s.mailbox;
    }
  }

  lemma StepInv(s: State, a: Action)
    requires Inv(s) && Enabled(s, a)
    ensures Inv(Step(s, a))
  {
    hide Edges, EdgeAt;
    QueueKept(s, a);
    assert a.Fetch? && s.fetched == [] ==> (s.fetched + s.mailbox)[0] == s.mailbox[0];
  }

  ghost predicate Justified(states: seq<State>, actions: seq<Action>, i: nat)
    requires i <= |actions| < |states|
  {
    if i == 0 then Init(states[0])
    else Enabled(states[i - 1], actions[i - 1]) && states[i] == Step(states[i - 1], actions[i - 1])
  }

  ghost predicate IsRun(states: seq<State>, actions: seq<Action>) {
    && |states| == |actions| + 1
    && forall i :: 0 <= i <= |actions| ==> Justified(states, actions, i)
  }

  ghost predicate Reachable(s: State) {
    exists states, actions :: IsRun(states, actions) && s == states[|actions|]
  }

  lemma {:induction false} RunInv(states: seq<State>, actions: seq<Action>, i: nat)
    requires IsRun(states, actions) && i <= |actions|
    ensures Inv(states[i])
  {
    assert Justified(states, actions, i);
    if i > 0 {
      RunInv(states, actions, i - 1);
      StepInv(states[i - 1], actions[i - 1]);
    }
  }

  lemma ReachableInv(s: State)
    requires Reachable(s)
    ensures Inv(s)
  {
    var states, actions :| IsRun(states, actions) && s == states[|actions|];
    RunInv(states, actions, |actions|);
  }

  lemma InitReachable(s: State)
    requires Init(s)
    ensures Reachable(s)
  {
    assert Justified([s], [], 0);
    assert IsRun([s], []);
  }

  lemma ReachableStep(s: State, a: Action)
    requires Reachable(s) && Enabled(s, a)
    ensures Reachable(Step(s, a))
  {
    hide Step, EdgeAt;
    var states, actions :| IsRun(states, actions) && s == states[|actions|];
    var states', actions' := states + [Step(s, a)], actions + [a];
    forall i | 0 <= i <= |actions'| ensures Justified(states', actions', i) {
      assert i <= |actions| ==> Justified(states, actions, i);
    }
    assert IsRun(states', actions');
  }

  /**
   * Whatever the samples, and however many posts a full mailbox drops: the first event handled is an
   * ignition-on, and not before ten samples; the tracker can only be initialising or riding; the GPS reader
   * is started at most once and never stopped.
   */
  lemma OnlyRides(s: State)
    requires Reachable(s)
    ensures s.fetched != [] ==> s.fetched[0] == IgnitionOn
    ensures s.state.SystemInit? || s.state.SystemRiding?
    ensures s.starts <= 1 && s.stops == 0
    ensures s.state.SystemRiding? ==> s.starts == 1
    ensures s.fetched != [] ==> |s.usb| >= DEBOUNCE_COUNTER_START
  {
    ReachableInv(s);
    CyclesTakeTime(s.usb);
    EdgesAlternate(s.usb);
    assert s.fetched != [] ==> (s.fetched + s.mailbox)[0] == s.fetched[0];
  }

  /** Riding is for ever: once there, no event makes the system thread do anything more. */
  lemma RidingIsFinal(s: State, a: Action)
    requires Reachable(s) && s.state.SystemRiding? && Enabled(s, a)
    ensures var s' := Step(s, a);
            s'.state.SystemRiding? && s'.starts == s.starts && (s'.sys.Fetching? || s'.sys.Handling?)
  {
    ReachableInv(s);
  }

  /** From state to state those of some steps are taken, one after the other, that can be taken. */
  ghost predicate Tries(states: seq<State>, steps: seq<Action>) {
    && |states| == |steps| + 1
    && forall i :: 0 <= i < |steps| ==> Tried(states[i], steps[i], states[i + 1])
  }

  predicate Tried(s: State, a: Action, t: State) {
    t == if Enabled(s, a) then Step(s, a) else s
  }

  lemma {:induction false} OperationTakesAll(states: seq<State>, steps: seq<Action>, k: nat)
    requires Tries(states, steps) && k <= |steps|
    ensures Operated(states[0], steps[..k]) == states[k]
  {
    if k > 0 {
      OperationTakesAll(states, steps, k - 1);
      assert Tried(states[k - 1], steps[k - 1], states[k]);
      assert steps[..k][..k - 1] == steps[..k - 1];
    }
  }

  /** The way to parking is never taken. */
  lemma NeverStops(s: State, a: Action)
    requires Reachable(s) && Enabled(s, a)
    ensures !a.Disarm? && !a.TryPowerOff? && !a.TryDisconnect?
  {
    ReachableInv(s);
  }

  /** Of some steps, in their order, those are taken that can be. */
  function Operated(s: State, steps: seq<Action>): State {
    if steps == [] then s
    else
      var m, a := Operated(s, steps[..|steps| - 1]), steps[|steps| - 1];
      if Enabled(m, a) then Step(m, a) else m
  }

  /** What the GPS thread has been given to do, and what it has done. */
  lemma GpsPollsCounted(s: State)
    requires Reachable(s)
    ensures s.state.SystemRiding? ==> s.gpsTimer && s.gpsSem + s.polls == s.ticks + 1
    ensures s.starts == 0 ==> !s.gpsTimer && s.gpsSem == 0 && s.polls == 0
  {
    ReachableInv(s);
  }

  /** A full mailbox is one with ten events, and only a full one drops a signal. */
  lemma PostedExactly(s: State, high: bool)
    requires Reachable(s)
    ensures |s.mailbox| <= 10
    ensures var e := EdgeAt(s.usb + [high]);
            Step(s, Sample(high)).mailbox
            == if |s.mailbox| == 10 || e == NoEdge then s.mailbox
               else s.mailbox + [if e == On then IgnitionOn else IgnitionOff]
  {
    hide EdgeAt, Edges;
    ReachableInv(s);
  }

  /** Events are handled in the order in which they got into the mailbox. */
  lemma EventsInOrder(s: State, a: Action)
    requires Enabled(s, a)
    ensures var s' := Step(s, a);
            if a.Sample? then s'.fetched == s.fetched && s.mailbox <= s'.mailbox
            else s'.fetched + s'.mailbox == s.fetched + s.mailbox
    ensures a.Fetch? ==> Step(s, a).sys == Handling((s.fetched + s.mailbox)[|s.fetched|])
  {
    hide EdgeAt, Edges;
  }

  /** Power-on follows a probe that was answered, and riding a power-on that succeeded. */
  lemma {:induction false} StepsInOrder(states: seq<State>, actions: seq<Action>, i: nat)
    requires IsRun(states, actions) && i <= |actions|
    ensures var s, before := states[i], actions[..i];
            && (s.starts > 0 || s.sys.PoweringOn? || s.sys.Arming? || GpsStarted(s) ==> TryConnect(true) in before)
            && (s.sys.Arming? || GpsStarted(s) ==> TryPowerOn(true) in before)
            && (GpsStarted(s) ==> Arm in before)
  {
    assert Justified(states, actions, i);
    if i > 0 {
      StepsInOrder(states, actions, i - 1);
      assert actions[..i] == actions[..i - 1] + [actions[i - 1]];
    }
  }

  predicate SystemUsesCommand(s: State) {
    s.sys.PoweringOn? || s.sys.PoweringOff?
  }

  /** The static command is never used by the system thread and the GPS thread at the same time. */
  lemma CommandNotShared(s: State)
    requires Reachable(s)
    ensures !(SystemUsesCommand(s) && s.gps.Polling?)
    ensures s.gps.Polling? ==> s.starts == 1
  {
    ReachableInv(s);
  }

  /** The board monitor, the system thread and the GPS thread, as they update the shared objects. */
  class Tracker {
    const usb: Debouncer
    const sdcard: Debouncer
    var mailbox: seq<Event>
    var sys: SystemPc
    var state: SystemState
    var gps: GpsPc
    var gpsSem: nat
    var gpsTimer: bool
    ghost var fetched: seq<Event>
    ghost var starts: nat
    ghost var stops: nat
    ghost var ticks: nat
    ghost var polls: nat

    ghost function View(): State
      reads this, usb
    {
      State(usb.history, mailbox, sys, state, gps, gpsSem, gpsTimer, fetched, starts, stops, ticks, polls)
    }

    ghost predicate Valid()
      reads this, usb, sdcard
    {
      usb != sdcard && usb.Valid() && sdcard.Valid() && Reachable(View())
    }

    twostate predicate Took(a: Action)
      reads this, usb, sdcard
    {
      Valid() && old(Enabled(View(), a)) && View() == Step(old(View()), a)
    }

    constructor ()
      ensures Valid() && Init(View()) && fresh(usb) && fresh(sdcard) && sdcard.history == []
    {
      usb := new Debouncer();
      sdcard := new Debouncer();
      mailbox, sys, state, gps, gpsSem, gpsTimer := [], Fetching, SystemInit, AwaitingSem, 0, false;
      fetched, starts, stops, ticks, polls := [], 0, 0, 0, 0;
      new;
      InitReachable(View());
    }

    /** chMBPostI: a full mailbox drops the event. */
    method Post(edge: Edge)
      modifies this`mailbox
      ensures mailbox == Posted(old(mailbox), Message(edge))
    {
      if |mailbox| < MAILBOX_SIZE {
        match edge {
          case On => mailbox := mailbox + [IgnitionOn];
          case Off => mailbox := mailbox + [IgnitionOff];
          case NoEdge => assert mailbox + [] == mailbox;
        }
      }
    }

    /** timerEventHandler: samples the card detector, then the ignition, and posts the ignition's signal. */
    method TimerEvent(cardInserted: bool, usbConnected: bool) returns (cardEdge: Edge, usbEdge: Edge)
      requires Valid()
      modifies this, usb, sdcard
      ensures Took(Sample(usbConnected))
      ensures sdcard.history == old(sdcard.history) + [cardInserted] && cardEdge == EdgeAt(sdcard.history)
      ensures usbEdge == EdgeAt(usb.history)
    {
      hide EdgeAt, Posted, Message, CounterAfter, Reachable;
      cardEdge := sdcard.Check(cardInserted);
      usbEdge := usb.Check(usbConnected);
      Post(usbEdge);
      ReachableStep(old(View()), Sample(usbConnected));
    }

    /** The system thread fetches the next event. */
    method FetchEvent()
      requires Valid() && Enabled(View(), Fetch)
      modifies this
      ensures Took(Fetch)
    {
      fetched := fetched + [mailbox[0]];
      sys := Handling(mailbox[0]);
      mailbox := mailbox[1..];
      ReachableStep(old(View()), Fetch);
    }

    /** The state handlers: only the initial one acts on its event. */
    method HandleEvent()
      requires Valid() && Enabled(View(), Dispatch)
      modifies this
      ensures Took(Dispatch)
    {
      if state == SystemInit {
        if sys.evt == IgnitionOn {
          sys := Connecting;
        } else {
          sys := Stopping;
          stops := stops + 1;
        }
      } else {
        sys := Fetching;
      }
      ReachableStep(old(View()), Dispatch);
    }

    /** One turn of connectModem. */
    method ConnectModem(connected: bool)
      requires Valid() && Enabled(View(), TryConnect(connected))
      modifies this
      ensures Took(TryConnect(connected))
    {
      if connected {
        sys := PoweringOn;
        starts := starts + 1;
      }
      ReachableStep(old(View()), TryConnect(connected));
    }

    /** One turn of gpsPowerOn. */
    method GpsPowerOn(ok: bool)
      requires Valid() && Enabled(View(), TryPowerOn(ok))
      modifies this
      ensures Took(TryPowerOn(ok))
    {
      if ok {
        sys := Arming;
      }
      ReachableStep(old(View()), TryPowerOn(ok));
    }

    /** The critical section of GpsReaderStart. */
    method ArmGpsTimer()
      requires Valid() && Enabled(View(), Arm)
      modifies this
      ensures Took(Arm)
    {
      gpsTimer := true;
      gpsSem := gpsSem + 1;
      sys := Started;
      ReachableStep(old(View()), Arm);
    }

    /** The return of the initial state's handler; the GPS thread may be polling already. */
    method EnterRiding()
      requires Valid() && Enabled(View(), Ride)
      modifies this
      ensures Took(Ride)
    {
      state := SystemRiding;
      sys := Fetching;
      ReachableStep(old(View()), Ride);
    }

    /** gpsTimerCallback, which arms the timer again. */
    method GpsTimerCallback()
      requires Valid() && Enabled(View(), GpsTimer)
      modifies this
      ensures Took(GpsTimer)
    {
      gpsTimer := true;
      gpsSem := gpsSem + 1;
      ticks := ticks + 1;
      ReachableStep(old(View()), GpsTimer);
    }

    /** The GPS thread gets past its semaphore and uses the static command. */
    method GpsBeginPoll()
      requires Valid() && Enabled(View(), GpsTake)
      modifies this
      ensures Took(GpsTake) && !SystemUsesCommand(View())
    {
      gpsSem := gpsSem - 1;
      gps := Polling;
      polls := polls + 1;
      ReachableStep(old(View()), GpsTake);
      CommandNotShared(View());
    }

    method GpsEndPoll()
      requires Valid() && Enabled(View(), GpsDone)
      modifies this
      ensures Took(GpsDone)
    {
      gps := AwaitingSem;
      ReachableStep(old(View()), GpsDone);
    }

    /** A step of anybody; a sample comes with one of the card detector. */
    method Perform(a: Action, cardInserted: bool)
      requires Valid() && Enabled(View(), a)
      modifies this, usb, sdcard
      ensures Took(a)
    {
      hide Reachable, Step, EdgeAt, CounterAfter;
      NeverStops(View(), a);
      match a {
        case Sample(high) => var _, _ := TimerEvent(cardInserted, high);
        case Fetch => FetchEvent();
        case Dispatch => HandleEvent();
        case TryConnect(connected) => ConnectModem(connected);
        case TryPowerOn(ok) => GpsPowerOn(ok);
        case Arm => ArmGpsTimer();
        case Ride => EnterRiding();
        case GpsTimer => GpsTimerCallback();
        case GpsTake => GpsBeginPoll();
        case GpsDone => GpsEndPoll();
      }
    }

    /** What a step needs to be taken, seen from the fields. */
    function Ready(a: Action): bool
      reads this
    {
      Enabled(State([], mailbox, sys, state, gps, gpsSem, gpsTimer, [], 0, 0, 0, 0), a)
    }

    /**
     * The tracker in operation: the steps that can be taken are, in their order.  Whatever they are, it rides at
     * most, and the command is not shared.
     */
    method Operate(steps: seq<Action>, cards: nat -> bool)
      requires Valid()
      modifies this, usb, sdcard
      ensures Valid() && View() == Operated(old(View()), steps)
      ensures state.SystemInit? || state.SystemRiding?
      ensures fetched != [] ==> fetched[0] == IgnitionOn
      ensures !(SystemUsesCommand(View()) && gps.Polling?)
      ensures old(state).SystemRiding? ==> state.SystemRiding? && starts == old(starts)
    {
      hide Reachable, Step, EdgeAt, CounterAfter;
      var i := 0;
      while i < |steps|
        invariant Valid() && i <= |steps| && View() == Operated(old(View()), steps[..i])
        invariant old(state).SystemRiding? ==> state.SystemRiding? && starts == old(starts)
      {
        assert steps[..i + 1][..i] == steps[..i];
        if Ready(steps[i]) {
          ghost var s := View();
          if state.SystemRiding? {
            RidingIsFinal(s, steps[i]);
          }
          Perform(steps[i], cards(i));
        }
        i := i + 1;
      }
      assert steps[..|steps|] == steps;
      OnlyRides(View());
      CommandNotShared(View());
    }
  }
}
