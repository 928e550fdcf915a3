/** The recursive directory listing: one path buffer and one file record serve every level of the recursion. */
module DirectoryWalk {
  import opened CStrings

  /** Result codes of the file system; every failure carries its code. */
  datatype FResult = FrOk | FrNoPath | FrError(code: nat)

  datatype Entry = Entry(name: string, isDir: bool)

  /** Where the file system fails: at the opening of a directory, or at the reading of its entry `at`. */
  datatype Fault = NoFault | OpenFails(result: FResult) | ReadFails(at: nat, result: FResult)

  datatype Directory = Directory(entries: seq<Entry>, fault: Fault)

  /** A finite file system: directories by full path.  skipDots is the configuration switch FF_FS_RPATH. */
  datatype Volume = Volume(dirs: map<string, Directory>, skipDots: bool)

  predicate WellFormedDirectory(d: Directory) {
    && (forall i :: 0 <= i < |d.entries| ==> d.entries[i].name != "" && NUL !in d.entries[i].name)
    && (d.fault != NoFault ==> d.fault.result != FrOk)
  }

  ghost predicate WellFormed(v: Volume) {
    forall p :: p in v.dirs ==> WellFormedDirectory(v.dirs[p])
  }

  function Child(p: string, e: Entry): string {
    p + "/" + e.name
  }

  /** The printed form of a file. */
  function FileLine(p: string, e: Entry): string {
    p + "/" + e.name + "\r\n"
  }

  predicate Skipped(v: Volume, e: Entry) {
    v.skipDots && e.name != "" && e.name[0] == '.'
  }

  ghost function Longest(keys: set<string>): (n: nat)
    ensures forall k :: k in keys ==> |k| <= n
  {
    if keys == {} then 0
    else
      var k :| k in keys;
      var rest := Longest(keys - {k});
      if |k| > rest then |k| else rest
  }

  /** How much longer a path can get before no directory has it. */
  ghost function Room(v: Volume, p: string): nat {
    if |p| <= Longest(v.dirs.Keys) then Longest(v.dirs.Keys) + 1 - |p| else 0
  }

  /** What a traversal meets, in order: files to print, and faults. */
  datatype Event = Line(text: string) | Trouble(result: FResult)

  function OpenTrouble(d: Directory): seq<Event> {
    if d.fault.OpenFails? then [Trouble(d.fault.result)] else []
  }

  function ReadTrouble(d: Directory, k: nat): seq<Event> {
    if d.fault.ReadFails? && d.fault.at == k then [Trouble(d.fault.result)] else []
  }

  /** The pure depth-first traversal.  It does not stop at faults, it only records them. */
  ghost function Trace(v: Volume, p: string): seq<Event>
    decreases Room(v, p), 1, 0
  {
    if p !in v.dirs then [Trouble(FrNoPath)]
    else OpenTrouble(v.dirs[p]) + TraceFrom(v, p, 0)
  }

  /** The traversal of a directory from entry k on. */
  ghost function TraceFrom(v: Volume, p: string, k: nat): seq<Event>
    requires p in v.dirs && k <= |v.dirs[p].entries|
    decreases Room(v, p), 0, |v.dirs[p].entries| - k
  {
    var d := v.dirs[p];
    if k == |d.entries| then ReadTrouble(d, k)
    else ReadTrouble(d, k) + TraceEntry(v, p, d.entries[k]) + TraceFrom(v, p, k + 1)
  }

  ghost function TraceEntry(v: Volume, p: string, e: Entry): seq<Event>
    requires p in v.dirs
    decreases Room(v, p), 0, 0
  {
    if Skipped(v, e) then []
    else if e.isDir then Trace(v, Child(p, e))
    else [Line(FileLine(p, e))]
  }

  /** All files met. */
  function Listing(t: seq<Event>): seq<string> {
    if t == [] then [] else (if t[0].Line? then [t[0].text] else []) + Listing(t[1..])
  }

  /** The files met before the first fault. */
  function Printed(t: seq<Event>): seq<string> {
    if t == [] || t[0].Trouble? then [] else [t[0].text] + Printed(t[1..])
  }

  /** The first fault, if there is one. */
  function Verdict(t: seq<Event>): FResult {
    if t == [] then FrOk else if t[0].Trouble? then t[0].result else Verdict(t[1..])
  }

  /** Faults are real failures. */
  predicate Failures(t: seq<Event>) {
    forall i :: 0 <= i < |t| && t[i].Trouble? ==> t[i].result != FrOk
  }

  lemma {:induction false} ListingSum(a: seq<Event>, b: seq<Event>)
    ensures Listing(a + b) == Listing(a) + Listing(b)
  {
    if a == [] {
      assert a + b == b;
    } else {
      assert a + b == [a[0]] + (a[1..] + b);
      ListingSum(a[1..], b);
    }
  }

  lemma {:induction false} TraceFailures(v: Volume, p: string)
    requires WellFormed(v)
    ensures Failures(Trace(v, p))
    decreases Room(v, p), 1, 0
  {
    if p in v.dirs {
      TraceFromFailures(v, p, 0);
    }
  }

  lemma {:induction false} TraceFromFailures(v: Volume, p: string, k: nat)
    requires WellFormed(v) && p in v.dirs && k <= |v.dirs[p].entries|
    ensures Failures(TraceFrom(v, p, k))
    decreases Room(v, p), 0, |v.dirs[p].entries| - k
  {
    if k < |v.dirs[p].entries| {
      var e := v.dirs[p].entries[k];
      if e.isDir && !Skipped(v, e) {
        TraceFailures(v, Child(p, e));
      }
      TraceFromFailures(v, p, k + 1);
    }
  }

  /** What one call prints and returns. */
  datatype Run = Run(lines: seq<string>, res: FResult)

  function Then(a: Run, b: Run): Run {
    if a.res == FrOk then Run(a.lines + b.lines, b.res) else a
  }

  lemma Associative(a: Run, b: Run, c: Run)
    ensures Then(Then(a, b), c) == Then(a, Then(b, c))
  {
    assert a.lines + b.lines + c.lines == a.lines + (b.lines + c.lines);
  }

  /** The walk as the code does it: it stops at the first fault. */
  ghost function Walk(v: Volume, p: string): Run
    decreases Room(v, p), 1, 0
  {
    if p !in v.dirs then Run([], FrNoPath)
    else if v.dirs[p].fault.OpenFails? then Run([], v.dirs[p].fault.result)
    else WalkFrom(v, p, 0)
  }

  ghost function WalkFrom(v: Volume, p: string, k: nat): Run
    requires p in v.dirs && k <= |v.dirs[p].entries|
    decreases Room(v, p), 0, |v.dirs[p].entries| - k
  {
    var d := v.dirs[p];
    if d.fault.ReadFails? && d.fault.at == k then Run([], d.fault.result)
    else if k == |d.entries| then Run([], FrOk)
    else Then(WalkEntry(v, p, d.entries[k]), WalkFrom(v, p, k + 1))
  }

  ghost function WalkEntry(v: Volume, p: string, e: Entry): Run
    requires p in v.dirs
    decreases Room(v, p), 0, 0
  {
    if Skipped(v, e) then Run([], FrOk)
    else if e.isDir then Walk(v, Child(p, e))
    else Run([FileLine(p, e)], FrOk)
  }

  /** Walking on from an entry is dealing with it, and then walking on from the next one if that went well. */
  lemma WalkStep(v: Volume, p: string, k: nat, before: seq<string>)
    requires p in v.dirs && k < |v.dirs[p].entries|
    requires !(v.dirs[p].fault.ReadFails? && v.dirs[p].fault.at == k)
    ensures Then(Run(before, FrOk), WalkFrom(v, p, k))
            == Then(Then(Run(before, FrOk), WalkEntry(v, p, v.dirs[p].entries[k])), WalkFrom(v, p, k + 1))
  {
    Associative(Run(before, FrOk), WalkEntry(v, p, v.dirs[p].entries[k]), WalkFrom(v, p, k + 1));
  }

  lemma WalkStops(v: Volume, p: string, k: nat, before: seq<string>)
    requires p in v.dirs && k <= |v.dirs[p].entries|
    ensures var d := v.dirs[p];
            if d.fault.ReadFails? && d.fault.at == k
            then Then(Run(before, FrOk), WalkFrom(v, p, k)) == Run(before, d.fault.result)
            else k == |d.entries| ==> Then(Run(before, FrOk), WalkFrom(v, p, k)) == Run(before, FrOk)
  {
    assert before + [] == before;
  }

  lemma WalkOpens(v: Volume, p: string, before: seq<string>)
    requires WellFormed(v)
    ensures var w := Then(Run(before, FrOk), Walk(v, p));
            if p !in v.dirs then w == Run(before, FrNoPath)
            else if v.dirs[p].fault.OpenFails? then w == Run(before, v.dirs[p].fault.result)
            else w == Then(Run(before, FrOk), WalkFrom(v, p, 0))
  {
    assert before + [] == before;
  }

  /** A trace cut at its first fault. */
  function Cut(t: seq<Event>): Run {
    Run(Printed(t), Verdict(t))
  }

  lemma {:induction false} CutSum(a: seq<Event>, b: seq<Event>)
    requires Failures(a)
    ensures Cut(a + b) == Then(Cut(a), Cut(b))
  {
    if a == [] {
      assert a + b == b;
    } else {
      assert a + b == [a[0]] + (a[1..] + b);
      CutSum(a[1..], b);
    }
  }

  lemma SingleLine(line: string)
    ensures Cut([Line(line)]) == Run([line], FrOk) && Listing([Line(line)]) == [line]
  {
    var t := [Line(line)];
    assert t[1..] == [];
    assert Printed(t) == [line] + Printed(t[1..]) && Verdict(t) == Verdict(t[1..]);
  }

  /** The walk prints what the complete traversal meets before its first fault, and returns that fault. */
  lemma {:induction false} WalkCutsTrace(v: Volume, p: string)
    requires WellFormed(v)
    ensures Walk(v, p) == Cut(Trace(v, p))
    decreases Room(v, p), 1, 0
  {
    if p in v.dirs && !v.dirs[p].fault.OpenFails? {
      WalkFromCutsTrace(v, p, 0);
      assert Trace(v, p) == TraceFrom(v, p, 0);
    }
  }

  lemma {:induction false} WalkEntryCutsTrace(v: Volume, p: string, e: Entry)
    requires WellFormed(v) && p in v.dirs
    ensures WalkEntry(v, p, e) == Cut(TraceEntry(v, p, e)) && Failures(TraceEntry(v, p, e))
    decreases Room(v, p), 0, 0
  {
    if e.isDir && !Skipped(v, e) {
      TraceFailures(v, Child(p, e));
      WalkCutsTrace(v, Child(p, e));
    } else if !Skipped(v, e) {
      assert TraceEntry(v, p, e) == [Line(FileLine(p, e))];
      SingleLine(FileLine(p, e));
    }
  }

  lemma {:induction false} WalkFromCutsTrace(v: Volume, p: string, k: nat)
    requires WellFormed(v) && p in v.dirs && k <= |v.dirs[p].entries|
    ensures WalkFrom(v, p, k) == Cut(TraceFrom(v, p, k))
    decreases Room(v, p), 0, |v.dirs[p].entries| - k
  {
    var d := v.dirs[p];
    if ReadTrouble(d, k) == [] && k < |d.entries| {
      WalkEntryCutsTrace(v, p, d.entries[k]);
      WalkFromCutsTrace(v, p, k + 1);
      CutSum(TraceEntry(v, p, d.entries[k]), TraceFrom(v, p, k + 1));
      assert TraceFrom(v, p, k) == TraceEntry(v, p, d.entries[k]) + TraceFrom(v, p, k + 1);
    }
  }

  /** Under faults the output is a prefix of the complete listing; without a fault it is the complete listing. */
  lemma {:induction false} PrintedIsPrefix(t: seq<Event>)
    requires Failures(t)
    ensures Printed(t) <= Listing(t)
    ensures Verdict(t) == FrOk <==> forall i :: 0 <= i < |t| ==> t[i].Line?
    ensures Verdict(t) == FrOk ==> Printed(t) == Listing(t)
    ensures Verdict(t) != FrOk ==>
              exists i :: 0 <= i < |t| && t[i] == Trouble(Verdict(t)) && forall j :: 0 <= j < i ==> t[j].Line?
  {
    if t != [] && t[0].Line? {
      PrintedIsPrefix(t[1..]);
      assert forall i :: 0 < i < |t| ==> t[i] == t[1..][i - 1];
      if Verdict(t) != FrOk {
        var i :| 0 <= i < |t[1..]| && t[1..][i] == Trouble(Verdict(t)) && forall j :: 0 <= j < i ==> t[1..][j].Line?;
        assert t[i + 1] == Trouble(Verdict(t)) && forall j :: 0 <= j < i + 1 ==> t[j].Line?;
      }
    }
  }

  /** d is p or a directory below it, reached through visible entries. */
  ghost predicate Below(v: Volume, p: string, d: string)
    decreases Room(v, p)
  {
    || d == p
    || (&& p in v.dirs
        && exists i :: 0 <= i < |v.dirs[p].entries| && v.dirs[p].entries[i].isDir && !Skipped(v, v.dirs[p].entries[i])
                       && Below(v, Child(p, v.dirs[p].entries[i]), d))
  }

  /** The line is the full path of a visible file of directory d. */
  ghost predicate NamesFile(v: Volume, d: string, line: string) {
    && d in v.dirs
    && exists i :: 0 <= i < |v.dirs[d].entries| && !v.dirs[d].entries[i].isDir && !Skipped(v, v.dirs[d].entries[i])
                   && line == FileLine(d, v.dirs[d].entries[i])
  }

  /** Faults add nothing to the listing: it is put together from the entries. */
  lemma ListingStep(v: Volume, p: string, k: nat)
    requires p in v.dirs && k < |v.dirs[p].entries|
    ensures Listing(TraceFrom(v, p, k))
            == Listing(TraceEntry(v, p, v.dirs[p].entries[k])) + Listing(TraceFrom(v, p, k + 1))
  {
    hide Listing, TraceEntry;
    var d := v.dirs[p];
    ListingSum(ReadTrouble(d, k), TraceEntry(v, p, d.entries[k]));
    ListingSum(ReadTrouble(d, k) + TraceEntry(v, p, d.entries[k]), TraceFrom(v, p, k + 1));
    NoLines(d, k);
  }

  lemma NoLines(d: Directory, k: nat)
    ensures Listing(ReadTrouble(d, k)) == [] && Listing(OpenTrouble(d)) == []
  {
  }

  lemma {:induction false} EntryIsListed(v: Volume, p: string, k: nat, i: nat, line: string)
    requires p in v.dirs && k <= i < |v.dirs[p].entries|
    requires line in Listing(TraceEntry(v, p, v.dirs[p].entries[i]))
    ensures line in Listing(TraceFrom(v, p, k))
    decreases i - k
  {
    hide Listing, TraceEntry, TraceFrom;
    if k < i {
      EntryIsListed(v, p, k + 1, i, line);
    }
    ListingStep(v, p, k);
    var a, b := Listing(TraceEntry(v, p, v.dirs[p].entries[k])), Listing(TraceFrom(v, p, k + 1));
    assert line in a || line in b;
  }

  lemma {:induction false} ListedByEntry(v: Volume, p: string, k: nat, line: string) returns (i: nat)
    requires p in v.dirs && k <= |v.dirs[p].entries|
    requires line in Listing(TraceFrom(v, p, k))
    ensures k <= i < |v.dirs[p].entries| && line in Listing(TraceEntry(v, p, v.dirs[p].entries[i]))
    decreases |v.dirs[p].entries| - k
  {
    assert k < |v.dirs[p].entries| by {
      assert Listing(ReadTrouble(v.dirs[p], k)) == [];
    }
    ListingStep(v, p, k);
    if line in Listing(TraceEntry(v, p, v.dirs[p].entries[k])) {
      i := k;
    } else {
      i := ListedByEntry(v, p, k + 1, line);
    }
  }

  lemma ListingOfDirectory(v: Volume, p: string)
    requires p in v.dirs
    ensures Listing(Trace(v, p)) == Listing(TraceFrom(v, p, 0))
  {
    ListingSum(OpenTrouble(v.dirs[p]), TraceFrom(v, p, 0));
  }

  /** Every line of the complete listing names a file below p. */
  lemma {:induction false} ListingSound(v: Volume, p: string, line: string)
    requires WellFormed(v) && line in Listing(Trace(v, p))
    ensures exists d :: Below(v, p, d) && NamesFile(v, d, line)
    decreases Room(v, p)
  {
    if p in v.dirs {
      ListingOfDirectory(v, p);
      var i := ListedByEntry(v, p, 0, line);
      var e := v.dirs[p].entries[i];
      assert !Skipped(v, e);
      if e.isDir {
        ListingSound(v, Child(p, e), line);
        var d :| Below(v, Child(p, e), d) && NamesFile(v, d, line);
        assert Below(v, p, d);
      } else {
        SingleLine(FileLine(p, e));
        assert Below(v, p, p) && NamesFile(v, p, line);
      }
    }
  }

  /** Every file below p is in the complete listing. */
  lemma {:induction false} ListingComplete(v: Volume, p: string, d: string, line: string)
    requires WellFormed(v) && Below(v, p, d) && NamesFile(v, d, line)
    ensures line in Listing(Trace(v, p))
    decreases Room(v, p)
  {
    if d == p {
      var i :| 0 <= i < |v.dirs[d].entries| && !v.dirs[d].entries[i].isDir && !Skipped(v, v.dirs[d].entries[i])
               && line == FileLine(d, v.dirs[d].entries[i]);
      SingleLine(line);
      EntryIsListed(v, p, 0, i, line);
    } else {
      var i :| 0 <= i < |v.dirs[p].entries| && v.dirs[p].entries[i].isDir && !Skipped(v, v.dirs[p].entries[i])
               && Below(v, Child(p, v.dirs[p].entries[i]), d);
      ListingComplete(v, Child(p, v.dirs[p].entries[i]), d, line);
      EntryIsListed(v, p, 0, i, line);
    }
    ListingOfDirectory(v, p);
  }

  /** What a call that reports success has printed: the files below p, all of them and nothing else. */
  lemma SuccessPrintsAllFiles(v: Volume, p: string, line: string)
    requires WellFormed(v) && Walk(v, p).res == FrOk
    ensures line in Walk(v, p).lines <==> exists d :: Below(v, p, d) && NamesFile(v, d, line)
  {
    WalkCutsTrace(v, p);
    TraceFailures(v, p);
    PrintedIsPrefix(Trace(v, p));
    if line in Walk(v, p).lines {
      ListingSound(v, p, line);
    }
    if d :| Below(v, p, d) && NamesFile(v, d, line) {
      ListingComplete(v, p, d, line);
    }
  }

  /** A call that fails has printed the beginning of the complete listing, and reports the first fault met. */
  lemma FailurePrintsPrefix(v: Volume, p: string)
    requires WellFormed(v) && Walk(v, p).res != FrOk
    ensures Walk(v, p).lines <= Listing(Trace(v, p))
    ensures exists i :: && 0 <= i < |Trace(v, p)| && Trace(v, p)[i] == Trouble(Walk(v, p).res)
                        && forall j :: 0 <= j < i ==> Trace(v, p)[j].Line?
  {
    WalkCutsTrace(v, p);
    TraceFailures(v, p);
    PrintedIsPrefix(Trace(v, p));
  }

  // What is printed, in terms of the volume alone.

  /** The way from p to a visible file, by the positions of the entries on it. */
  ghost predicate IsFileRoute(v: Volume, p: string, r: seq<nat>)
    decreases |r|
  {
    && r != [] && p in v.dirs && r[0] < |v.dirs[p].entries|
    && var e := v.dirs[p].entries[r[0]];
       && !(v.skipDots && e.name != "" && e.name[0] == '.')
       && if |r| == 1 then !e.isDir else e.isDir && IsFileRoute(v, p + "/" + e.name, r[1..])
  }

  /** The printed form of that file: its full path. */
  ghost function LineOf(v: Volume, p: string, r: seq<nat>): string
    requires IsFileRoute(v, p, r)
    decreases |r|
  {
    var e := v.dirs[p].entries[r[0]];
    if |r| == 1 then p + "/" + e.name + "\r\n" else LineOf(v, p + "/" + e.name, r[1..])
  }

  /** Directory order: by the entry of the first directory in which the ways part. */
  predicate Precedes(a: seq<nat>, b: seq<nat>)
    decreases |a|
  {
    a != [] && b != [] && (a[0] < b[0] || (a[0] == b[0] && Precedes(a[1..], b[1..])))
  }

  /** The lines are those of the files on these ways, in directory order. */
  ghost predicate InOrder(v: Volume, p: string, routes: seq<seq<nat>>, lines: seq<string>) {
    && |routes| == |lines|
    && (forall k :: 0 <= k < |routes| ==> IsFileRoute(v, p, routes[k]) && lines[k] == LineOf(v, p, routes[k]))
    && (forall i, j :: 0 <= i < j < |routes| ==> Precedes(routes[i], routes[j]))
  }

  /** They are all ways to files below p that begin with one of the entries from lo to hi. */
  ghost predicate Covers(v: Volume, p: string, lo: nat, hi: nat, routes: seq<seq<nat>>) {
    && (forall k :: 0 <= k < |routes| ==> routes[k] != [] && lo <= routes[k][0] < hi)
    && (forall r :: IsFileRoute(v, p, r) && lo <= r[0] < hi ==> r in routes)
  }

  function Behind(k: nat, routes: seq<seq<nat>>): seq<seq<nat>> {
    seq(|routes|, i requires 0 <= i < |routes| => [k] + routes[i])
  }

  /** The files of one directory, seen from the one above. */
  lemma BehindEntry(v: Volume, p: string, k: nat, routes: seq<seq<nat>>, lines: seq<string>)
    requires p in v.dirs && k < |v.dirs[p].entries|
    requires v.dirs[p].entries[k].isDir && !Skipped(v, v.dirs[p].entries[k])
    requires var q := Child(p, v.dirs[p].entries[k]);
             InOrder(v, q, routes, lines) && (forall r :: IsFileRoute(v, q, r) ==> r in routes)
    ensures InOrder(v, p, Behind(k, routes), lines) && Covers(v, p, k, k + 1, Behind(k, routes))
  {
    var all := Behind(k, routes);
    forall i | 0 <= i < |all| ensures IsFileRoute(v, p, all[i]) && lines[i] == LineOf(v, p, all[i]) {
      assert all[i][1..] == routes[i];
      assert IsFileRoute(v, Child(p, v.dirs[p].entries[k]), routes[i]);
    }
    forall i, j | 0 <= i < j < |all| ensures Precedes(all[i], all[j]) {
      assert all[i][1..] == routes[i] && all[j][1..] == routes[j];
      assert Precedes(routes[i], routes[j]);
    }
    forall r | IsFileRoute(v, p, r) && k <= r[0] < k + 1 ensures r in all {
      assert r[1..] in routes;
      var i :| 0 <= i < |routes| && routes[i] == r[1..];
      assert all[i] == [k] + r[1..] == r;
    }
  }

  lemma OneFile(v: Volume, p: string, k: nat)
    requires p in v.dirs && k < |v.dirs[p].entries|
    requires !v.dirs[p].entries[k].isDir && !Skipped(v, v.dirs[p].entries[k])
    ensures InOrder(v, p, [[k]], [FileLine(p, v.dirs[p].entries[k])]) && Covers(v, p, k, k + 1, [[k]])
  {
    forall r | IsFileRoute(v, p, r) && k <= r[0] < k + 1 ensures r in [[k]] {
      assert r == [k];
    }
  }

  lemma NoFile(v: Volume, p: string, k: nat)
    requires p in v.dirs && k < |v.dirs[p].entries| && Skipped(v, v.dirs[p].entries[k])
    ensures InOrder(v, p, [], []) && Covers(v, p, k, k + 1, [])
  {
  }

  lemma OrderSum(
    v: Volume, p: string, lo: nat, mid: nat, hi: nat,
    a: seq<seq<nat>>, b: seq<seq<nat>>, x: seq<string>, y: seq<string>)
    requires lo <= mid <= hi
    requires InOrder(v, p, a, x) && Covers(v, p, lo, mid, a)
    requires InOrder(v, p, b, y) && Covers(v, p, mid, hi, b)
    ensures InOrder(v, p, a + b, x + y) && Covers(v, p, lo, hi, a + b)
  {
  }

  lemma {:induction false} EntryRoutes(v: Volume, p: string, k: nat) returns (routes: seq<seq<nat>>)
    requires WellFormed(v) && p in v.dirs && k < |v.dirs[p].entries|
    ensures InOrder(v, p, routes, Listing(TraceEntry(v, p, v.dirs[p].entries[k]))) && Covers(v, p, k, k + 1, routes)
    decreases Room(v, p), 0, 0
  {
    var e := v.dirs[p].entries[k];
    if Skipped(v, e) {
      NoFile(v, p, k);
      routes := [];
    } else if e.isDir {
      var below := ListingRoutes(v, Child(p, e));
      BehindEntry(v, p, k, below, Listing(Trace(v, Child(p, e))));
      routes := Behind(k, below);
    } else {
      OneFile(v, p, k);
      SingleLine(FileLine(p, e));
      routes := [[k]];
    }
  }

  lemma {:induction false} FromRoutes(v: Volume, p: string, k: nat) returns (routes: seq<seq<nat>>)
    requires WellFormed(v) && p in v.dirs && k <= |v.dirs[p].entries|
    ensures InOrder(v, p, routes, Listing(TraceFrom(v, p, k))) && Covers(v, p, k, |v.dirs[p].entries|, routes)
    decreases Room(v, p), 0, |v.dirs[p].entries| - k
  {
    hide InOrder, Covers, Listing;
    var d := v.dirs[p];
    if k == |d.entries| {
      NoLines(d, k);
      routes := [];
      NoneLeft(v, p);
    } else {
      var a := EntryRoutes(v, p, k);
      var b := FromRoutes(v, p, k + 1);
      ListingStep(v, p, k);
      routes := a + b;
      OrderSum(v, p, k, k + 1, |d.entries|, a, b,
               Listing(TraceEntry(v, p, d.entries[k])), Listing(TraceFrom(v, p, k + 1)));
    }
  }

  lemma NoneLeft(v: Volume, p: string)
    requires p in v.dirs
    ensures InOrder(v, p, [], []) && Covers(v, p, |v.dirs[p].entries|, |v.dirs[p].entries|, [])
  {
  }

  /** The complete listing has the line of each file below p once, in directory order, whatever fails. */
  lemma {:induction false} ListingRoutes(v: Volume, p: string) returns (routes: seq<seq<nat>>)
    requires WellFormed(v)
    ensures InOrder(v, p, routes, Listing(Trace(v, p))) && forall r :: IsFileRoute(v, p, r) ==> r in routes
    decreases Room(v, p), 1, 0
  {
    if p in v.dirs {
      routes := FromRoutes(v, p, 0);
      ListingOfDirectory(v, p);
      forall r | IsFileRoute(v, p, r) ensures r in routes {
        assert 0 <= r[0] < |v.dirs[p].entries|;
      }
    } else {
      routes := [];
      assert [Trouble(FrNoPath)][1..] == [];
    }
  }

  /** These are the lines of all files below p, each once, in directory order. */
  ghost predicate ListsAllFiles(v: Volume, p: string, lines: seq<string>) {
    exists routes :: InOrder(v, p, routes, lines) && forall r :: IsFileRoute(v, p, r) ==> r in routes
  }

  /** What a walk prints: all files below p in directory order, and when it fails the beginning of this. */
  lemma WalkPrintsInOrder(v: Volume, p: string)
    requires WellFormed(v)
    ensures Walk(v, p).res == FrOk ==> ListsAllFiles(v, p, Walk(v, p).lines)
    ensures exists all :: ListsAllFiles(v, p, all) && Walk(v, p).lines <= all
  {
    var routes := ListingRoutes(v, p);
    WalkCutsTrace(v, p);
    TraceFailures(v, p);
    PrintedIsPrefix(Trace(v, p));
    assert ListsAllFiles(v, p, Listing(Trace(v, p)));
  }

  /** A successful walk prints a line if and only if it is the full path of a visible file, written out. */
  lemma LinesSpelledOut(v: Volume, p: string, line: string)
    requires WellFormed(v) && Walk(v, p).res == FrOk
    ensures line in Walk(v, p).lines <==>
              exists d, e :: Below(v, p, d) && d in v.dirs && e in v.dirs[d].entries && !e.isDir
                             && !(v.skipDots && e.name != "" && e.name[0] == '.')
                             && line == d + "/" + e.name + "\r\n"
  {
    SuccessPrintsAllFiles(v, p, line);
    if d :| Below(v, p, d) && NamesFile(v, d, line) {
      var i :| 0 <= i < |v.dirs[d].entries| && !v.dirs[d].entries[i].isDir && !Skipped(v, v.dirs[d].entries[i])
               && line == FileLine(d, v.dirs[d].entries[i]);
      assert v.dirs[d].entries[i] in v.dirs[d].entries;
    }
    forall d, e | Below(v, p, d) && d in v.dirs && e in v.dirs[d].entries && !e.isDir
                  && !(v.skipDots && e.name != "" && e.name[0] == '.') && line == d + "/" + e.name + "\r\n"
      ensures NamesFile(v, d, line)
    {
      var i :| 0 <= i < |v.dirs[d].entries| && v.dirs[d].entries[i] == e;
    }
  }

  lemma SeparatorInName(d: string, name: string, d': string, name': string)
    requires d + "/" + name + "\r\n" == d' + "/" + name' + "\r\n" && |d| < |d'|
    ensures '/' in name
  {
    var a, b := d + "/" + name + "\r\n", d' + "/" + name' + "\r\n";
    assert |a| == |b| && a[|d'|] == b[|d'|] == '/';
    assert a[|d'|] == name[|d'| - |d| - 1];
  }

  /** Two different files never have the same line, as names have no separator in them. */
  lemma LineTellsFile(d: string, name: string, d': string, name': string)
    requires '/' !in name && '/' !in name'
    requires d + "/" + name + "\r\n" == d' + "/" + name' + "\r\n"
    ensures d == d' && name == name'
  {
    if |d| < |d'| {
      SeparatorInName(d, name, d', name');
    } else if |d'| < |d| {
      SeparatorInName(d', name', d, name);
    } else {
      var a, b := d + "/" + name + "\r\n", d' + "/" + name' + "\r\n";
      assert a[..|d|] == d && b[..|d|] == d';
      assert a[|d| + 1..|a| - 2] == name && b[|d| + 1..|a| - 2] == name';
    }
  }

  /** The directory cannot be opened, or read to its end. */
  predicate Faulty(v: Volume, d: string) {
    || d !in v.dirs
    || v.dirs[d].fault.OpenFails?
    || (v.dirs[d].fault.ReadFails? && v.dirs[d].fault.at <= |v.dirs[d].entries|)
  }

  function FaultOf(v: Volume, d: string): FResult
    requires Faulty(v, d)
  {
    if d !in v.dirs then FrNoPath else v.dirs[d].fault.result
  }

  lemma {:induction false} SuccessMeansSound(v: Volume, p: string, d: string)
    requires Walk(v, p).res == FrOk && Below(v, p, d) && WellFormed(v)
    ensures !Faulty(v, d)
    decreases Room(v, p), 1, 0
  {
    SuccessMeansSoundFrom(v, p, 0);
    if d != p {
      var i :| 0 <= i < |v.dirs[p].entries| && v.dirs[p].entries[i].isDir && !Skipped(v, v.dirs[p].entries[i])
               && Below(v, Child(p, v.dirs[p].entries[i]), d);
      SuccessMeansSound(v, Child(p, v.dirs[p].entries[i]), d);
    }
  }

  /** A directory walked to its end has no fault, and all walks into it have succeeded. */
  lemma {:induction false} SuccessMeansSoundFrom(v: Volume, p: string, k: nat)
    requires p in v.dirs && k <= |v.dirs[p].entries| && WalkFrom(v, p, k).res == FrOk && WellFormed(v)
    ensures v.dirs[p].fault.ReadFails? ==> v.dirs[p].fault.at < k || v.dirs[p].fault.at > |v.dirs[p].entries|
    ensures forall i :: k <= i < |v.dirs[p].entries| ==> WalkEntry(v, p, v.dirs[p].entries[i]).res == FrOk
    decreases |v.dirs[p].entries| - k
  {
    if k < |v.dirs[p].entries| {
      SuccessMeansSoundFrom(v, p, k + 1);
    }
  }

  lemma {:induction false} FailureMeansFault(v: Volume, p: string) returns (d: string)
    requires WellFormed(v) && Walk(v, p).res != FrOk
    ensures Below(v, p, d) && Faulty(v, d) && Walk(v, p).res == FaultOf(v, d)
    decreases Room(v, p), 1, 0
  {
    d := p;
    if p in v.dirs && !v.dirs[p].fault.OpenFails? {
      d := FailureMeansFaultFrom(v, p, 0);
    }
  }

  lemma {:induction false} FailureMeansFaultFrom(v: Volume, p: string, k: nat) returns (d: string)
    requires WellFormed(v) && p in v.dirs && !v.dirs[p].fault.OpenFails? && k <= |v.dirs[p].entries|
    requires WalkFrom(v, p, k).res != FrOk
    ensures Below(v, p, d) && Faulty(v, d) && WalkFrom(v, p, k).res == FaultOf(v, d)
    decreases Room(v, p), 0, |v.dirs[p].entries| - k
  {
    d := p;
    if ReadTrouble(v.dirs[p], k) == [] {
      var e := v.dirs[p].entries[k];
      if WalkEntry(v, p, e).res == FrOk {
        d := FailureMeansFaultFrom(v, p, k + 1);
      } else {
        d := FailureMeansFault(v, Child(p, e));
      }
    }
  }

  /** A walk succeeds if and only if nothing below p is faulty; otherwise its result is the code of such a fault. */
  lemma SuccessExactly(v: Volume, p: string)
    requires WellFormed(v)
    ensures Walk(v, p).res == FrOk <==> forall d :: Below(v, p, d) ==> !Faulty(v, d)
    ensures Walk(v, p).res != FrOk ==> exists d :: Below(v, p, d) && Faulty(v, d) && Walk(v, p).res == FaultOf(v, d)
  {
    if Walk(v, p).res == FrOk {
      forall d | Below(v, p, d) ensures !Faulty(v, d) {
        SuccessMeansSound(v, p, d);
      }
    } else {
      var d := FailureMeansFault(v, p);
    }
  }

  // The walk itself.

  /** The path of every directory below p fits the buffer, with its terminator. */
  ghost predicate Fits(v: Volume, p: string, size: nat)
    decreases Room(v, p)
  {
    && |p| < size
    && (p in v.dirs ==>
          forall i :: 0 <= i < |v.dirs[p].entries| && v.dirs[p].entries[i].isDir && !Skipped(v, v.dirs[p].entries[i])
                      ==> Fits(v, Child(p, v.dirs[p].entries[i]), size))
  }

  /** The static file record. */
  class FilInfo {
    var fname: string
    var isDir: bool

    constructor ()
    {
      fname, isDir := "", false;
    }
  }

  class TreeCommand {
    const volume: Volume
    const path: array<char>
    const fno: FilInfo
    var out: seq<string>

    constructor (volume: Volume, path: array<char>)
      ensures this.volume == volume && this.path == path && out == [] && fresh(fno)
    {
      this.volume, this.path, out := volume, path, [];
      fno := new FilInfo();
    }

    ghost predicate Valid()
      reads this, path
    {
      WellFormed(volume) && NUL in path[..]
    }

    ghost function PathString(): string
      reads path
    {
      CStr(path[..])
    }

    /** f_opendir, on the string the path buffer holds at the moment. */
    method OpenDir() returns (res: FResult)
      requires Valid()
      ensures res == (if PathString() !in volume.dirs then FrNoPath
                      else if volume.dirs[PathString()].fault.OpenFails? then volume.dirs[PathString()].fault.result
                      else FrOk)
    {
      var p := CStr(path[..]);
      if p !in volume.dirs {
        return FrNoPath;
      }
      var d := volume.dirs[p];
      return if d.fault.OpenFails? then d.fault.result else FrOk;
    }

    /** f_readdir: overwrites the one file record; an empty name marks the end of the directory. */
    method ReadDir(dir: string, pos: nat) returns (res: FResult)
      requires Valid() && dir in volume.dirs && pos <= |volume.dirs[dir].entries|
      modifies fno
      ensures var d := volume.dirs[dir];
              if d.fault.ReadFails? && d.fault.at == pos then res == d.fault.result
              else res == FrOk && (if pos == |d.entries| then fno.fname == ""
                                   else Entry(fno.fname, fno.isDir) == d.entries[pos])
    {
      var d := volume.dirs[dir];
      if d.fault.ReadFails? && d.fault.at == pos {
        return d.fault.result;
      }
      res := FrOk;
      if pos == |d.entries| {
        fno.fname := "";
      } else {
        fno.fname, fno.isDir := d.entries[pos].name, d.entries[pos].isDir;
      }
    }

    /** strcpy of the record's name behind the separator. */
    method AppendName(i: nat, ghost p: string)
      requires Valid() && |p| == i && i + 1 + |fno.fname| < path.Length
      requires PathString() == p && NUL !in fno.fname
      modifies path
      ensures PathString() == p + "/" + fno.fname
      ensures NUL in path[..] && NUL !in p
    {
      CStrPrefix(path[..]);
      assert path[..i] == p;
      path[i] := '/';
      var n := |fno.fname|;
      forall j | 0 <= j <= n {
        path[i + 1 + j] := if j < n then fno.fname[j] else NUL;
      }
      assert path[..i] == p;
      assert path[..i + 1 + n] == p + "/" + fno.fname;
      assert path[..][i + 1 + n] == NUL;
      CStrIs(path[..], i + 1 + n);
      assert path[..][..i + 1 + n] == path[..i + 1 + n];
    }

    method CutPath(i: nat, ghost p: string)
      requires i == |p| && NUL !in p && p < PathString()
      modifies path
      ensures PathString() == p && NUL in path[..]
    {
      CStrPrefix(path[..]);
      assert path[..i] == PathString()[..i];
      path[i] := NUL;
      assert path[..][..i] == p && path[..][i] == NUL;
      CStrIs(path[..], i);
    }

    /**
     * scanFiles.  It prints and returns what the pure walk does, and leaves the path buffer with the string
     * it found there.
     */
    method ScanFiles() returns (res: FResult)
      requires Valid() && Fits(volume, PathString(), path.Length)
      modifies this`out, path, fno
      ensures Valid() && PathString() == old(PathString())
      ensures Run(out, res) == Then(Run(old(out), FrOk), Walk(volume, PathString()))
      ensures old(out) <= out
      ensures res == FrOk ==> ListsAllFiles(volume, PathString(), out[|old(out)|..])
      ensures exists all :: ListsAllFiles(volume, PathString(), all) && out[|old(out)|..] <= all
      ensures res == FrOk <==> forall d :: Below(volume, PathString(), d) ==> !Faulty(volume, d)
      decreases Room(volume, PathString()), 1
    {
      res := ScanLoop();
      WalkPrintsInOrder(volume, PathString());
      SuccessExactly(volume, PathString());
      assert (old(out) + Walk(volume, PathString()).lines)[|old(out)|..] == Walk(volume, PathString()).lines;
    }

    /** Its body, against the pure walk. */
    method ScanLoop() returns (res: FResult)
      requires Valid() && Fits(volume, PathString(), path.Length)
      modifies this`out, path, fno
      ensures Valid() && PathString() == old(PathString())
      ensures Run(out, res) == Then(Run(old(out), FrOk), Walk(volume, PathString()))
      decreases Room(volume, PathString()), 1, 0
    {
      hide Walk, WalkFrom, WalkEntry, Fits, CStr, Room;
      ghost var p := PathString();
      WalkOpens(volume, p, out);
      ghost var goal := Then(Run(out, FrOk), Walk(volume, p));
      res := OpenDir();
      if res != FrOk { return; }
      var dir := CStr(path[..]);
      var i := |CStr(path[..])|;
      var pos := 0;
      while true
        invariant Valid() && PathString() == p == dir && i == |p| && pos <= |volume.dirs[p].entries|
        invariant Then(Run(out, FrOk), WalkFrom(volume, p, pos)) == goal
        decreases |volume.dirs[p].entries| - pos
      {
        WalkStops(volume, p, pos, out);
        res := ReadDir(dir, pos);
        if res != FrOk || fno.fname == "" { return; }
        ghost var e := volume.dirs[p].entries[pos];
        WalkStep(volume, p, pos, out);
        res := ScanEntry(i, e);
        pos := pos + 1;
        if res != FrOk { return; }
      }
    }

    /** The body of the loop, for the entry that the file record describes. */
    method ScanEntry(i: nat, ghost e: Entry) returns (res: FResult)
      requires Valid() && Fits(volume, PathString(), path.Length)
      requires i == |PathString()| && PathString() in volume.dirs && e in volume.dirs[PathString()].entries
      requires Entry(fno.fname, fno.isDir) == e
      modifies this`out, path, fno
      ensures Valid() && PathString() == old(PathString())
      ensures Run(out, res) == Then(Run(old(out), FrOk), WalkEntry(volume, PathString(), e))
      decreases Room(volume, PathString()), 0
    {
      hide ListsAllFiles, Below, Faulty, Walk, CStr;
      ghost var p := PathString();
      res := FrOk;
      CStrPrefix(path[..]);
      if volume.skipDots && fno.fname[0] == '.' { return; }
      if fno.isDir {
        assert Fits(volume, Child(p, e), path.Length);
        AppendName(i, p);
        assert PathString() == Child(p, e);
        res := ScanFiles();
        CutPath(i, p);
      } else {
        out := out + [CStr(path[..]) + "/" + fno.fname + "\r\n"];
      }
    }

    /** sdcardCmdTree, once the volume is known to be mounted: lists from the root. */
    method ListTree()
      requires WellFormed(volume) && Fits(volume, "", path.Length)
      modifies this`out, path, fno
      ensures out == old(out) + Walk(volume, "").lines
      ensures exists all :: ListsAllFiles(volume, "", all) && out[|old(out)|..] <= all
    {
      path[0] := NUL;
      CStrIs(path[..], 0);
      var _ := ScanFiles();
    }
  }
}
