/** The sweep of the IRQ storm test: how fast may the interrupts come before the chain saturates? */
module StormSweep {
  const START: nat := 2000
  const SHORTEST: nat := 2

  /** The next interval of the sweep. */
  function Next(interval: nat): nat
    requires interval >= SHORTEST
  {
    interval - (interval + 9) / 10
  }

  /** All intervals that a sweep starting at `from` can try. */
  function Intervals(from: nat): seq<nat> {
    if from < SHORTEST then [] else [from] + Intervals(Next(from))
  }

  /** The first of some intervals at which the chain saturates, or 0. */
  function FirstSaturating(intervals: seq<nat>, saturates: nat -> bool): nat {
    if intervals == [] then 0
    else if saturates(intervals[0]) then intervals[0]
    else FirstSaturating(intervals[1..], saturates)
  }

  /** Every interval is in range, so that both timer settings are, and is at least a tenth shorter than the last. */
  lemma {:induction false} IntervalsShrink(from: nat)
    ensures forall i :: 0 <= i < |Intervals(from)| ==> 2 <= Intervals(from)[i] <= from
    ensures forall i :: 0 < i < |Intervals(from)| ==> 10 * Intervals(from)[i] <= 9 * Intervals(from)[i - 1]
  {
    if from >= SHORTEST {
      IntervalsShrink(Next(from));
      var rest := Intervals(Next(from));
      forall i | 0 < i < |Intervals(from)| ensures 10 * Intervals(from)[i] <= 9 * Intervals(from)[i - 1] {
        assert Intervals(from)[i] == rest[i - 1];
        if i == 1 {
          assert rest[0] == Next(from);
        } else {
          assert Intervals(from)[i - 1] == rest[i - 2];
        }
      }
    }
  }

  /** The threshold is 0 exactly when no interval saturates; otherwise every longer interval tried was fine. */
  lemma {:induction false} ThresholdIsFirst(intervals: seq<nat>, saturates: nat -> bool)
    requires forall i :: 0 <= i < |intervals| ==> intervals[i] > 0
    ensures var t := FirstSaturating(intervals, saturates);
            if t == 0 then forall i :: 0 <= i < |intervals| ==> !saturates(intervals[i])
            else exists i :: 0 <= i < |intervals| && intervals[i] == t && saturates(t)
                             && forall j :: 0 <= j < i ==> !saturates(intervals[j])
  {
    if intervals != [] && !saturates(intervals[0]) {
      var rest := intervals[1..];
      ThresholdIsFirst(rest, saturates);
      var t := FirstSaturating(rest, saturates);
      if t != 0 {
        var i :| 0 <= i < |rest| && rest[i] == t && saturates(t) && forall j :: 0 <= j < i ==> !saturates(rest[j]);
        assert intervals[i + 1] == t && forall j :: 0 <= j < i + 1 ==> !saturates(intervals[j]);
      } else {
        assert forall i :: 0 < i < |intervals| ==> intervals[i] == rest[i - 1];
      }
    }
  }

  /** The threshold depends on nothing but the intervals tried. */
  lemma {:induction false} SameThreshold(intervals: seq<nat>, f: nat -> bool, g: nat -> bool)
    requires forall i :: 0 <= i < |intervals| ==> f(intervals[i]) == g(intervals[i])
    ensures FirstSaturating(intervals, f) == FirstSaturating(intervals, g)
  {
    if intervals != [] {
      SameThreshold(intervals[1..], f, g);
    }
  }

  /** A sweep tries one interval after the other. */
  lemma TriesNext(k: nat, interval: nat, start: nat)
    requires k <= |Intervals(start)| && Intervals(start)[k..] == Intervals(interval)
    ensures if interval < SHORTEST then k == |Intervals(start)|
            else && k < |Intervals(start)| && Intervals(start)[k] == interval
                 && Intervals(start)[k + 1..] == Intervals(Next(interval))
  {
    if interval >= SHORTEST {
      assert Intervals(interval)[1..] == Intervals(Next(interval));
      assert Intervals(start)[k..][0] == interval && Intervals(start)[k..][1..] == Intervals(start)[k + 1..];
    }
  }

  /** From one interval to the next it is a tenth less, rounded up, and no more. */
  predicate TenthLess(interval: nat, next: nat) {
    0 <= 9 * interval - 10 * next < 10
  }

  /** The sweep skips nothing: from the start each interval is followed by the one a tenth shorter, down to 2. */
  lemma {:induction false} IntervalsComplete(from: nat)
    ensures from < 2 ==> Intervals(from) == []
    ensures from >= 2 ==> var q := Intervals(from); q != [] && q[0] == from && q[|q| - 1] == 2
    ensures forall i :: 0 < i < |Intervals(from)| ==> TenthLess(Intervals(from)[i - 1], Intervals(from)[i])
  {
    if from >= 2 {
      var q, rest := Intervals(from), Intervals(Next(from));
      IntervalsComplete(Next(from));
      forall i | 0 < i < |q| ensures TenthLess(q[i - 1], q[i]) {
        assert q[i] == rest[i - 1];
        if i == 1 {
          assert rest[0] == Next(from);
        } else {
          assert q[i - 1] == rest[i - 2];
        }
      }
      if from == 2 {
        assert rest == [];
      }
    }
  }

  lemma FirstThree(from: nat)
    requires from >= 10
    ensures |Intervals(from)| >= 3
    ensures Intervals(from)[..3] == [from, Next(from), Next(Next(from))]
  {
    var b := Next(from);
    var c := Next(b);
    assert Intervals(from) == [from] + ([b] + ([c] + Intervals(Next(c))));
  }

  /** The numbers of the test. */
  lemma SweepNumbers()
    ensures START == 2000 && |Intervals(2000)| >= 3 && Intervals(2000)[..3] == [2000, 1800, 1620]
  {
    hide Intervals;
    FirstThree(2000);
  }
}
