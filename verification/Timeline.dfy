/** A machine's state as a step function of trace time, built by a sweep over step boundaries.
    Models `Timeline` of experiments/mes_trace.py for one machine. */
module Timeline {
  import opened Wrappers

  /** A work step, in seconds since the first event of the trace. */
  datatype WorkStep = WorkStep(start: real, end: real, setup: bool)

  predicate ValidStep(s: WorkStep) { 0.0 <= s.start <= s.end }

  datatype Machine = Idle | Setup | Busy

  function MachineState(active: int, setup: int): Machine {
    if active <= 0 then Idle else if setup > 0 then Setup else Busy
  }

  // ---------------------------------------------------------------- the naive definition

  predicate ActiveAt(s: WorkStep, t: real) { s.start <= t < s.end }

  function CountActive(steps: seq<WorkStep>, t: real): nat {
    if steps == [] then 0
    else CountActive(steps[..|steps| - 1], t) + if ActiveAt(steps[|steps| - 1], t) then 1 else 0
  }

  function CountSetup(steps: seq<WorkStep>, t: real): nat {
    if steps == [] then 0
    else CountSetup(steps[..|steps| - 1], t) + if ActiveAt(steps[|steps| - 1], t) && steps[|steps| - 1].setup then 1 else 0
  }

  /** IDLE when no step is active, SETUP while a setup step is, BUSY otherwise. */
  function Naive(steps: seq<WorkStep>, t: real): Machine {
    MachineState(CountActive(steps, t), CountSetup(steps, t))
  }

  lemma {:induction false} CountsSome(steps: seq<WorkStep>, t: real)
    ensures CountActive(steps, t) > 0 <==> exists i :: 0 <= i < |steps| && ActiveAt(steps[i], t)
    ensures CountSetup(steps, t) > 0 <==> exists i :: 0 <= i < |steps| && ActiveAt(steps[i], t) && steps[i].setup
    decreases |steps|
  {
    if steps != [] {
      var n := |steps| - 1;
      CountsSome(steps[..n], t);
      assert steps == steps[..n] + [steps[n]];
      assert forall i :: 0 <= i < n ==> steps[..n][i] == steps[i];
    }
  }

  /** The counted state, read directly: IDLE exactly when no step is active, SETUP exactly when a setup step is. */
  lemma NaiveMeans(steps: seq<WorkStep>, t: real)
    ensures Naive(steps, t) == Idle <==> forall i :: 0 <= i < |steps| ==> !(steps[i].start <= t < steps[i].end)
    ensures Naive(steps, t) == Setup <==> exists i :: 0 <= i < |steps| && steps[i].start <= t < steps[i].end && steps[i].setup
  {
    CountsSome(steps, t);
    if i :| 0 <= i < |steps| && steps[i].start <= t < steps[i].end {
      assert ActiveAt(steps[i], t);
    }
    if i :| 0 <= i < |steps| && ActiveAt(steps[i], t) && steps[i].setup {
      assert ActiveAt(steps[i], t);
    }
  }

  // ---------------------------------------------------------------- step boundaries

  datatype Point = Point(t: real, active: int, setup: int)

  /** Tuples compare component by component. */
  predicate Before(p: Point, q: Point) {
    p.t < q.t || (p.t == q.t && (p.active < q.active || (p.active == q.active && p.setup <= q.setup)))
  }

  /** Both boundaries of every step. */
  function Boundaries(steps: seq<WorkStep>): seq<Point> {
    if steps == [] then []
    else
      var s := steps[|steps| - 1];
      var d := if s.setup then 1 else 0;
      Boundaries(steps[..|steps| - 1]) + [Point(s.start, 1, d), Point(s.end, -1, -d)]
  }

  function Insert(p: Point, points: seq<Point>): seq<Point> {
    if points == [] || Before(p, points[0]) then [p] + points else [points[0]] + Insert(p, points[1..])
  }

  function Sorted(points: seq<Point>): seq<Point> {
    if points == [] then [] else Insert(points[|points| - 1], Sorted(points[..|points| - 1]))
  }

  predicate InTime(points: seq<Point>) {
    forall i, j :: 0 <= i < j < |points| ==> points[i].t <= points[j].t
  }

  /** The net number of steps, and of setup steps, opened up to and including time t. */
  function OpenAt(points: seq<Point>, t: real): (int, int) {
    if points == [] then (0, 0)
    else
      var rest, p := OpenAt(points[1..], t), points[0];
      if p.t <= t then (rest.0 + p.active, rest.1 + p.setup) else rest
  }

  lemma {:induction false} OpenAtConcat(a: seq<Point>, b: seq<Point>, t: real)
    ensures OpenAt(a + b, t) == (OpenAt(a, t).0 + OpenAt(b, t).0, OpenAt(a, t).1 + OpenAt(b, t).1)
    decreases |a|
  {
    if a == [] {
      assert a + b == b;
    } else {
      assert (a + b)[1..] == a[1..] + b;
      OpenAtConcat(a[1..], b, t);
    }
  }

  /** Counting boundaries counts the active steps, also those of length zero. */
  lemma {:induction false} BoundariesCount(steps: seq<WorkStep>, t: real)
    requires forall s :: s in steps ==> ValidStep(s)
    ensures OpenAt(Boundaries(steps), t) == (CountActive(steps, t), CountSetup(steps, t))
    decreases |steps|
  {
    if steps != [] {
      var s := steps[|steps| - 1];
      var d := if s.setup then 1 else 0;
      assert ValidStep(s);
      BoundariesCount(steps[..|steps| - 1], t);
      OpenAtConcat(Boundaries(steps[..|steps| - 1]), [Point(s.start, 1, d), Point(s.end, -1, -d)], t);
      OpenAtPair(Point(s.start, 1, d), Point(s.end, -1, -d), t);
    }
  }

  lemma OpenAtPair(p: Point, q: Point, t: real)
    ensures OpenAt([p, q], t) == ((if p.t <= t then p.active else 0) + (if q.t <= t then q.active else 0),
                                  (if p.t <= t then p.setup else 0) + (if q.t <= t then q.setup else 0))
  {
    assert [p, q][1..] == [q] && [q][1..] == [];
    assert OpenAt([q], t) == if q.t <= t then (q.active, q.setup) else (0, 0);
  }

  lemma {:induction false} InsertMembers(p: Point, points: seq<Point>)
    ensures |Insert(p, points)| == |points| + 1
    ensures forall q :: q in Insert(p, points) <==> q == p || q in points
    decreases |points|
  {
    if points != [] && !Before(p, points[0]) {
      InsertMembers(p, points[1..]);
      assert points == [points[0]] + points[1..];
    }
  }

  lemma {:induction false} InsertInTime(p: Point, points: seq<Point>)
    requires InTime(points)
    ensures InTime(Insert(p, points))
    decreases |points|
  {
    if points != [] && !Before(p, points[0]) {
      InsertInTime(p, points[1..]);
      InsertMembers(p, points[1..]);
      assert forall q :: q in points[1..] ==> points[0].t <= q.t;
    }
  }

  lemma {:induction false} InsertOpen(p: Point, points: seq<Point>, t: real)
    ensures OpenAt(Insert(p, points), t) == OpenAt([p] + points, t)
    decreases |points|
  {
    assert ([p] + points)[1..] == points;
    if points != [] && !Before(p, points[0]) {
      InsertOpen(p, points[1..], t);
      assert Insert(p, points)[1..] == Insert(p, points[1..]);
      assert ([p] + points[1..])[1..] == points[1..];
    }
  }

  lemma {:induction false} SortedMembers(points: seq<Point>)
    ensures InTime(Sorted(points)) && |Sorted(points)| == |points|
    ensures forall q :: q in Sorted(points) <==> q in points
    decreases |points|
  {
    if points != [] {
      var n := |points| - 1;
      SortedMembers(points[..n]);
      InsertMembers(points[n], Sorted(points[..n]));
      InsertInTime(points[n], Sorted(points[..n]));
      assert points == points[..n] + [points[n]];
    }
  }

  lemma {:induction false} SortedOpen(points: seq<Point>, t: real)
    ensures OpenAt(Sorted(points), t) == OpenAt(points, t)
    decreases |points|
  {
    if points != [] {
      var n := |points| - 1;
      var rest, p := points[..n], points[n];
      SortedOpen(rest, t);
      InsertOpen(p, Sorted(rest), t);
      assert points == rest + [p];
      OpenAtConcat(rest, [p], t);
      OpenAtConcat([p], Sorted(rest), t);
    }
  }

  // ---------------------------------------------------------------- the step function

  predicate Ascending(times: seq<real>) {
    forall i, j :: 0 <= i < j < |times| ==> times[i] <= times[j]
  }

  /** How many change times are not after t. */
  function Upto(times: seq<real>, t: real): (n: nat)
    ensures n <= |times|
  {
    if times == [] then 0 else if times[|times| - 1] <= t then |times| else Upto(times[..|times| - 1], t)
  }

  lemma {:induction false} UptoSplits(times: seq<real>, t: real, n: nat)
    requires Ascending(times) && n <= |times|
    requires forall i :: 0 <= i < n ==> times[i] <= t
    requires forall i :: n <= i < |times| ==> times[i] > t
    ensures Upto(times, t) == n
    decreases |times|
  {
    if n < |times| {
      UptoSplits(times[..|times| - 1], t, n);
    }
  }

  lemma {:induction false} UptoIs(times: seq<real>, t: real)
    requires Ascending(times)
    ensures forall i :: 0 <= i < Upto(times, t) ==> times[i] <= t
    ensures forall i :: Upto(times, t) <= i < |times| ==> times[i] > t
    decreases |times|
  {
    if times != [] && times[|times| - 1] > t {
      UptoIs(times[..|times| - 1], t);
    }
  }

  /** Binary search for the insertion point to the right. */
  method BisectRight(times: seq<real>, t: real) returns (i: nat)
    requires Ascending(times)
    ensures i == Upto(times, t)
  {
    var lo, hi := 0, |times|;
    while lo < hi
      invariant 0 <= lo <= hi <= |times|
      invariant forall k :: 0 <= k < lo ==> times[k] <= t
      invariant forall k :: hi <= k < |times| ==> times[k] > t
    {
      var mid := (lo + hi) / 2;
      if t < times[mid] {
        hi := mid;
      } else {
        lo := mid + 1;
      }
    }
    UptoSplits(times, t, lo);
    return lo;
  }

  /** Change times and the state from each on. The first entry is IDLE at 0; a change at 0 itself is a
      second entry for 0, and from then on times strictly increase. */
  datatype Changes = Changes(times: seq<real>, states: seq<Machine>)

  predicate WellFormed(c: Changes) {
    && |c.times| == |c.states| >= 1 && c.times[0] == 0.0 && c.states[0] == Idle
    && Ascending(c.times)
    && (forall i :: 1 <= i < |c.times| - 1 ==> c.times[i] < c.times[i + 1])
    && (forall i :: 0 <= i < |c.states| - 1 ==> c.states[i] != c.states[i + 1])
  }

  function StateOf(c: Changes, t: real): Machine
    requires WellFormed(c) && t >= 0.0
  {
    UptoPositive(c.times, t);
    c.states[Upto(c.times, t) - 1]
  }

  lemma {:induction false} UptoPositive(times: seq<real>, t: real)
    requires times != [] && times[0] <= t
    ensures Upto(times, t) >= 1
    decreases |times|
  {
    if times[|times| - 1] > t {
      UptoPositive(times[..|times| - 1], t);
    }
  }

  /** Record a state from time t on, unless it is the current one. */
  function Extended(c: Changes, t: real, s: Machine): Changes
    requires c.states != []
  {
    if s == c.states[|c.states| - 1] then c else Changes(c.times + [t], c.states + [s])
  }

  /** The time may follow the recorded ones. */
  predicate Follows(c: Changes, t: real) {
    |c.times| >= 1 && c.times[|c.times| - 1] <= t && (|c.times| >= 2 ==> c.times[|c.times| - 1] < t)
  }

  lemma ExtendedWellFormed(c: Changes, t: real, s: Machine)
    requires WellFormed(c) && Follows(c, t)
    ensures WellFormed(Extended(c, t, s))
  {
  }

  /** Before the time nothing changes; from it on the recorded state holds. */
  lemma ExtendedState(c: Changes, t: real, s: Machine, x: real)
    requires WellFormed(c) && Follows(c, t) && WellFormed(Extended(c, t, s)) && x >= 0.0
    ensures StateOf(Extended(c, t, s), x) == if t <= x then s else StateOf(c, x)
  {
  }

  lemma LastHolds(c: Changes, x: real)
    requires WellFormed(c) && x >= c.times[|c.times| - 1]
    ensures x >= 0.0 && StateOf(c, x) == c.states[|c.states| - 1]
  {
  }

  // ---------------------------------------------------------------- the sweep

  /** The step function is right up to (not including) `bound`; None is no bound. */
  ghost predicate RightUpTo(c: Changes, points: seq<Point>, bound: Option<real>) {
    WellFormed(c) &&
    forall x :: x >= 0.0 && (bound.Some? ==> x < bound.value) ==>
      StateOf(c, x) == MachineState(OpenAt(points, x).0, OpenAt(points, x).1)
  }

  function Total(points: seq<Point>): (int, int) {
    if points == [] then (0, 0)
    else var rest := Total(points[..|points| - 1]); (rest.0 + points[|points| - 1].active, rest.1 + points[|points| - 1].setup)
  }

  lemma {:induction false} OpenAtSplit(points: seq<Point>, j: nat, x: real)
    requires j <= |points|
    requires forall i :: 0 <= i < j ==> points[i].t <= x
    requires forall i :: j <= i < |points| ==> points[i].t > x
    ensures OpenAt(points, x) == Total(points[..j])
  {
    assert points == points[..j] + points[j..];
    OpenAtConcat(points[..j], points[j..], x);
    AllOpen(points[..j], x);
    NoneOpen(points[j..], x);
  }

  lemma {:induction false} AllOpen(points: seq<Point>, x: real)
    requires forall p :: p in points ==> p.t <= x
    ensures OpenAt(points, x) == Total(points)
    decreases |points|
  {
    if points != [] {
      var n := |points| - 1;
      AllOpen(points[..n], x);
      assert points == points[..n] + [points[n]];
      OpenAtConcat(points[..n], [points[n]], x);
      assert [points[n]][1..] == [];
    }
  }

  lemma {:induction false} NoneOpen(points: seq<Point>, x: real)
    requires forall p :: p in points ==> p.t > x
    ensures OpenAt(points, x) == (0, 0)
    decreases |points|
  {
    if points != [] {
      NoneOpen(points[1..], x);
    }
  }

  function BoundAt(points: seq<Point>, j: nat): Option<real> {
    if j < |points| then Some(points[j].t) else None
  }

  /** Closing a group of boundaries at one instant extends the part of the line that is right. */
  lemma GroupCloses(c: Changes, points: seq<Point>, j: nat, s: Machine)
    requires InTime(points) && j < |points| && Follows(c, points[j].t)
    requires j + 1 < |points| ==> points[j].t < points[j + 1].t
    requires RightUpTo(c, points, Some(points[j].t))
    requires var total := Total(points[..j + 1]); s == MachineState(total.0, total.1)
    ensures RightUpTo(Extended(c, points[j].t, s), points, BoundAt(points, j + 1))
  {
    var d := Extended(c, points[j].t, s);
    ExtendedWellFormed(c, points[j].t, s);
    forall x | x >= 0.0 && (j + 1 < |points| ==> x < points[j + 1].t)
      ensures StateOf(d, x) == MachineState(OpenAt(points, x).0, OpenAt(points, x).1)
    {
      ExtendedState(c, points[j].t, s, x);
      if points[j].t <= x {
        OpenAtSplit(points, j + 1, x);
      }
    }
  }

  /** One sweep over the sorted boundaries. Every boundary at an instant is applied before the state is
      looked at, so adjacent steps leave no zero-length IDLE between them. */
  method Sweep(points: seq<Point>) returns (c: Changes)
    requires InTime(points) && forall p :: p in points ==> p.t >= 0.0
    ensures RightUpTo(c, points, None)
  {
    var active, setup := 0, 0;
    var times, states, last := [0.0], [Idle], Idle;
    InitiallyRight(points);
    for j := 0 to |points|
      invariant (active, setup) == Total(points[..j])
      invariant |times| == |states| >= 1 && last == states[|states| - 1]
      invariant RightUpTo(Changes(times, states), points, BoundAt(points, j))
      invariant j < |points| ==> Follows(Changes(times, states), points[j].t)
    {
      var p := points[j];
      assert p in points;
      TotalSnoc(points, j);
      active := active + p.active;
      setup := setup + p.setup;
      if j + 1 < |points| && points[j + 1].t == p.t {
        continue;
      }
      var s := MachineState(active, setup);
      ghost var before := Changes(times, states);
      GroupCloses(before, points, j, s);
      if s != last {
        times := times + [p.t];
        states := states + [s];
        last := s;
      }
      assert Changes(times, states) == Extended(before, p.t, s);
    }
    c := Changes(times, states);
  }

  lemma TotalSnoc(points: seq<Point>, j: nat)
    requires j < |points|
    ensures Total(points[..j + 1]) == (Total(points[..j]).0 + points[j].active, Total(points[..j]).1 + points[j].setup)
  {
    assert points[..j + 1][..j] == points[..j];
  }

  /** Before the first boundary the machine is idle. */
  lemma InitiallyRight(points: seq<Point>)
    requires InTime(points)
    ensures RightUpTo(Changes([0.0], [Idle]), points, BoundAt(points, 0))
  {
    var c := Changes([0.0], [Idle]);
    forall x | x >= 0.0 && (points != [] ==> x < points[0].t)
      ensures StateOf(c, x) == MachineState(OpenAt(points, x).0, OpenAt(points, x).1)
    {
      LastHolds(c, x);
      NoneOpen(points, x);
    }
  }

  /** The step function of a machine: at every instant it is what counting the active steps gives. */
  ghost predicate Refines(c: Changes, steps: seq<WorkStep>) {
    WellFormed(c) && forall t :: t >= 0.0 ==> StateOf(c, t) == Naive(steps, t)
  }

  lemma {:induction false} BoundariesInRange(steps: seq<WorkStep>)
    requires forall s :: s in steps ==> ValidStep(s)
    ensures forall p :: p in Boundaries(steps) ==> p.t >= 0.0
    decreases |steps|
  {
    if steps != [] {
      BoundariesInRange(steps[..|steps| - 1]);
      assert ValidStep(steps[|steps| - 1]);
    }
  }

  /** The sweep refines the naive definition, for any multiset of steps. */
  method Build(steps: seq<WorkStep>) returns (c: Changes)
    requires forall s :: s in steps ==> ValidStep(s)
    ensures Refines(c, steps)
  {
    var points := Sorted(Boundaries(steps));
    SortedMembers(Boundaries(steps));
    BoundariesInRange(steps);
    c := Sweep(points);
    forall t | t >= 0.0 ensures StateOf(c, t) == Naive(steps, t) {
      SortedOpen(Boundaries(steps), t);
      BoundariesCount(steps, t);
    }
  }

  /** The state at t, by binary search. */
  method State(c: Changes, ghost steps: seq<WorkStep>, t: real) returns (s: Machine)
    requires Refines(c, steps) && t >= 0.0
    ensures s == Naive(steps, t)
  {
    var i := BisectRight(c.times, t);
    UptoPositive(c.times, t);
    s := c.states[i - 1];
    assert s == StateOf(c, t);
  }

  /** The next change is the first later instant at which the counted state differs; None is never. */
  ghost predicate IsNextChange(steps: seq<WorkStep>, t: real, next: Option<real>) {
    && (next.Some? ==> t < next.value && Naive(steps, next.value) != Naive(steps, t))
    && forall x :: t <= x && (next.Some? ==> x < next.value) ==> Naive(steps, x) == Naive(steps, t)
  }

  method NextChange(c: Changes, ghost steps: seq<WorkStep>, t: real) returns (next: Option<real>)
    requires Refines(c, steps) && t >= 0.0
    ensures IsNextChange(steps, t, next)
  {
    var i := BisectRight(c.times, t);
    next := if i < |c.times| then Some(c.times[i]) else None;
    NextChangeIs(c, steps, t);
  }

  lemma SameEntry(c: Changes, t: real, x: real)
    requires WellFormed(c) && 0.0 <= t <= x
    requires Upto(c.times, t) < |c.times| ==> x < c.times[Upto(c.times, t)]
    ensures StateOf(c, x) == StateOf(c, t)
  {
    UptoIs(c.times, t);
    assert forall i :: Upto(c.times, t) <= i < |c.times| ==> c.times[Upto(c.times, t)] <= c.times[i];
    UptoSplits(c.times, x, Upto(c.times, t));
  }

  lemma NextEntry(c: Changes, t: real)
    requires WellFormed(c) && 0.0 <= t && Upto(c.times, t) < |c.times|
    ensures var u := c.times[Upto(c.times, t)]; t < u && StateOf(c, u) != StateOf(c, t)
  {
    var i := Upto(c.times, t);
    UptoIs(c.times, t);
    UptoPositive(c.times, t);
    assert forall k :: i < k < |c.times| ==> c.times[i] < c.times[i + 1] <= c.times[k];
    UptoSplits(c.times, c.times[i], i + 1);
    assert c.states[i - 1] != c.states[i - 1 + 1];
  }

  lemma NextChangeIs(c: Changes, steps: seq<WorkStep>, t: real)
    requires Refines(c, steps) && t >= 0.0
    ensures IsNextChange(steps, t, if Upto(c.times, t) < |c.times| then Some(c.times[Upto(c.times, t)]) else None)
  {
    var i := Upto(c.times, t);
    forall x | t <= x && (i < |c.times| ==> x < c.times[i]) ensures Naive(steps, x) == Naive(steps, t) {
      SameEntry(c, t, x);
    }
    if i < |c.times| {
      NextEntry(c, t);
    }
  }
}
