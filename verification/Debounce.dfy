/** The debouncer of the board monitor: ten high samples in a row switch on, one low sample switches off. */
module Debounce {
  const DEBOUNCE_COUNTER_START: nat := 10

  datatype Edge = NoEdge | On | Off

  /** The number of high samples at the end of a history. */
  function Run(h: seq<bool>): nat {
    if h == [] || !h[|h| - 1] then 0 else 1 + Run(h[..|h| - 1])
  }

  /** What the newest sample signals: the tenth high one in a row, or the low one that ends such a row. */
  function EdgeAt(h: seq<bool>): Edge
    requires h != []
  {
    if Run(h) == DEBOUNCE_COUNTER_START then On
    else if !h[|h| - 1] && Run(h[..|h| - 1]) >= DEBOUNCE_COUNTER_START then Off
    else NoEdge
  }

  /** All signals of a history, in order. */
  function Edges(h: seq<bool>): seq<Edge> {
    if h == [] then []
    else Edges(h[..|h| - 1]) + (if EdgeAt(h).NoEdge? then [] else [EdgeAt(h)])
  }

  function CounterAfter(h: seq<bool>): nat {
    if Run(h) >= DEBOUNCE_COUNTER_START then 0 else DEBOUNCE_COUNTER_START - Run(h)
  }

  class Debouncer {
    var counter: nat
    ghost var history: seq<bool>

    /** The counter says what is still missing of a row of ten high samples. */
    ghost predicate Valid()
      reads this
    {
      counter == CounterAfter(history)
    }

    constructor ()
      ensures Valid() && history == []
    {
      counter, history := DEBOUNCE_COUNTER_START, [];
    }

    /** checkSdcard and the debouncing half of checkUsb. */
    method Check(high: bool) returns (edge: Edge)
      requires Valid()
      modifies this
      ensures Valid() && history == old(history) + [high]
      ensures edge == EdgeAt(history)
      ensures edge == On <==> High(history, 10, 0) && (|history| == 10 || !history[|history| - 11])
      ensures edge == Off <==> !high && High(history, 10, 1)
    {
      history := history + [high];
      assert history[..|history| - 1] == old(history);
      edge := NoEdge;
      if counter > 0 {
        if high {
          counter := counter - 1;
          if counter == 0 {
            edge := On;
          }
        } else {
          counter := DEBOUNCE_COUNTER_START;
        }
      } else {
        if !high {
          counter := DEBOUNCE_COUNTER_START;
          edge := Off;
        }
      }
      TenthSample(history);
    }
  }

  predicate Alternating(q: seq<Edge>) {
    forall i :: 0 <= i < |q| ==> q[i] == if i % 2 == 0 then On else Off
  }

  /** Signals alternate, beginning with On, and an odd number of them means that the row is still going on. */
  lemma {:induction false} EdgesAlternate(h: seq<bool>)
    ensures Alternating(Edges(h))
    ensures |Edges(h)| % 2 == 1 <==> Run(h) >= DEBOUNCE_COUNTER_START
  {
    if h != [] {
      EdgesAlternate(h[..|h| - 1]);
    }
  }

  /** The number of On signals of a history. */
  function Ons(h: seq<bool>): nat {
    multiset(Edges(h))[On]
  }

  lemma {:induction false} OnsAmong(q: seq<Edge>)
    requires Alternating(q)
    ensures multiset(q)[On] == (|q| + 1) / 2
  {
    if q != [] {
      var n := |q| - 1;
      OnsAmong(q[..n]);
      assert q == q[..n] + [q[n]];
    }
  }

  /** A pair of signals takes at least eleven samples, and the row that may follow takes its own. */
  lemma {:induction false} CyclesTakeTime(h: seq<bool>)
    ensures 11 * (|Edges(h)| / 2) + Run(h) <= |h|
  {
    if h != [] {
      CyclesTakeTime(h[..|h| - 1]);
      EdgesAlternate(h[..|h| - 1]);
    }
  }

  /** n samples hold at most (n + 1) / 11 On signals, however they are arranged. */
  lemma OnsAreRare(h: seq<bool>)
    ensures Ons(h) <= (|h| + 1) / 11
  {
    hide Edges, Run, Alternating;
    CyclesTakeTime(h);
    EdgesAlternate(h);
    OnsAmong(Edges(h));
  }

  /** A row of high samples, seen sample by sample. */
  lemma {:induction false} RunMeans(h: seq<bool>)
    ensures Run(h) <= |h| && forall i :: |h| - Run(h) <= i < |h| ==> h[i]
    ensures Run(h) < |h| ==> !h[|h| - Run(h) - 1]
  {
    if h != [] && h[|h| - 1] {
      var t := h[..|h| - 1];
      RunMeans(t);
      assert forall i :: 0 <= i < |t| ==> t[i] == h[i];
    }
  }

  /** The last n samples but `late` are high. */
  predicate High(h: seq<bool>, n: nat, late: nat) {
    n + late <= |h| && forall i :: |h| - n - late <= i < |h| - late ==> h[i]
  }

  /** On is signalled exactly at the tenth high sample of a row, Off exactly at a low one behind ten high ones. */
  lemma TenthSample(h: seq<bool>)
    requires h != []
    ensures EdgeAt(h) == On <==> High(h, 10, 0) && (|h| == 10 || !h[|h| - 11])
    ensures EdgeAt(h) == Off <==> !h[|h| - 1] && High(h, 10, 1)
  {
    var t := h[..|h| - 1];
    RunMeans(h);
    RunMeans(t);
    assert forall i :: 0 <= i < |t| ==> t[i] == h[i];
  }
}
