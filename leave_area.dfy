/** The boundary-exit estimator `countLeaveArea`.

    A sensor sits at `position` inside the monitoring cube [-10000, 10000]^3
    and drifts with the combined velocity `waterSpeed + thrusterSpeed`. The
    estimator answers how long, moving in a straight line, it takes the sensor
    to reach a face of the cube. Numbers are reals: IEEE-754 rounding is not
    modelled, and `Infinity` ("no candidate yet") is `None`. */
module LeaveArea {

  import opened Maybe
  import opened MathOps

  /** Half-extent of the monitoring cube on every axis. */
  const MaxPosition: real := 10000.0

  /** Axis speeds of at most this magnitude count as standing still. */
  const Epsilon: real := 0.0000000001

  /** The four return statements of the estimator: "Invalid input data",
      the early "0.00" for a sensor already out, "Never" and `t.toFixed(2)`.
      A time below 0.005 also prints as "0.00". */
  datatype Estimate = Invalid | AlreadyOut | Never | Time(t: real)

  /** The test at the head of each loop iteration: the axis is at or past
      one of the two faces. */
  predicate OutOfBounds(p: real) {
    MaxPosition - p <= 0.0 || -MaxPosition - p >= 0.0
  }

  /** The epsilon guard: only such axes get a crossing time. */
  predicate Moving(s: real) {
    Abs(s) > Epsilon
  }

  /** `t > 0 ? t : Infinity`: a non-positive time is discarded. */
  function Candidate(t: real): (c: Option<real>)
    ensures c.Some? <==> t > 0.0
    ensures c.Some? ==> c.value == t
  {
    if t > 0.0 then Some(t) else None
  }

  /** `Math.min` over the positive reals extended with `Infinity` (`None`). */
  function EarlierOf(a: Option<real>, b: Option<real>): (m: Option<real>)
    ensures m.None? <==> a.None? && b.None?
    ensures m == a || m == b
    ensures a.Some? ==> m.value <= a.value
    ensures b.Some? ==> m.value <= b.value
  {
    match (a, b)
    case (None, _) => b
    case (_, None) => a
    case (Some(x), Some(y)) => Some(Min(x, y))
  }

  /** The per-axis time `timeToReachBoundary` of the source, or `None` when
      the axis is not moving or neither face lies ahead. */
  function AxisCrossing(p: real, s: real): (c: Option<real>)
    ensures c.Some? ==> c.value > 0.0
  {
    if !Moving(s) then None
    else EarlierOf(Candidate((MaxPosition - p) / s), Candidate((-MaxPosition - p) / s))
  }

  /** Reference definition of an axis's exit time: the face the axis moves
      towards is +10000 for a positive speed and -10000 for a negative one. */
  function ExitTime(p: real, s: real): real
    requires s != 0.0
  {
    if s > 0.0 then (MaxPosition - p) / s else (-MaxPosition - p) / s
  }

  /** `axisSpeed`: water and thruster speed added axis by axis. */
  function AxisSpeeds(waterSpeed: seq<real>, thrusterSpeed: seq<real>): (v: seq<real>)
    requires |waterSpeed| == |thrusterSpeed|
    ensures |v| == |waterSpeed|
    ensures forall i :: 0 <= i < |v| ==> v[i] == waterSpeed[i] + thrusterSpeed[i]
  {
    seq(|waterSpeed|, i requires 0 <= i < |waterSpeed| => waterSpeed[i] + thrusterSpeed[i])
  }

  /** Every axis's crossing time, in axis order. */
  function Crossings(position: seq<real>, speed: seq<real>): (c: seq<Option<real>>)
    requires |position| == |speed|
    ensures |c| == |position|
    ensures forall i :: 0 <= i < |c| ==> c[i] == AxisCrossing(position[i], speed[i])
  {
    seq(|position|, i requires 0 <= i < |position| => AxisCrossing(position[i], speed[i]))
  }

  /** The running minimum of a list of crossing times, folded from the left
      as the loop does. */
  function EarliestCrossing(c: seq<Option<real>>): Option<real>
  {
    if c == [] then None else EarlierOf(EarliestCrossing(c[..|c| - 1]), c[|c| - 1])
  }

  /** `m` is the minimum of the times in `c`, or `None` when `c` holds none. */
  predicate IsEarliest(c: seq<Option<real>>, m: Option<real>) {
    && (m.None? <==> forall i :: 0 <= i < |c| ==> c[i].None?)
    && (m.Some? ==> exists i :: 0 <= i < |c| && c[i] == m)
    && (m.Some? ==> forall i :: 0 <= i < |c| && c[i].Some? ==> m.value <= c[i].value)
  }

  /** The functional specification of `countLeaveArea`: validation, then
      "already out" if any axis is out, then the minimum crossing time over
      the axes. */
  function CountLeaveArea(position: seq<real>, waterSpeed: seq<real>, thrusterSpeed: seq<real>): Estimate
  {
    if |position| != 3 || |waterSpeed| != 3 || |thrusterSpeed| != 3 then Invalid
    else if exists i :: 0 <= i < 3 && OutOfBounds(position[i]) then AlreadyOut
    else match EarliestCrossing(Crossings(position, AxisSpeeds(waterSpeed, thrusterSpeed)))
      case None => Never
      case Some(m) => Time(m)
  }

  /** The source's loop: one pass over the three axes with the running
      minimum `minPositiveTime` and the early return of "0.00". */
  method CountLeaveAreaLoop(position: seq<real>, waterSpeed: seq<real>, thrusterSpeed: seq<real>)
    returns (r: Estimate)
    ensures r == CountLeaveArea(position, waterSpeed, thrusterSpeed)
  {
    if |position| != 3 || |waterSpeed| != 3 || |thrusterSpeed| != 3 {
      return Invalid;
    }
    var axisSpeed := seq(|position|, i requires 0 <= i < |position| => waterSpeed[i] + thrusterSpeed[i]);
    ghost var crossings := Crossings(position, axisSpeed);
    var minPositiveTime: Option<real> := None;
    for i := 0 to 3
      invariant forall j :: 0 <= j < i ==> !OutOfBounds(position[j])
      invariant minPositiveTime == EarliestCrossing(crossings[..i])
    {
      var distanceToPositiveBoundary := MaxPosition - position[i];
      var distanceToNegativeBoundary := -MaxPosition - position[i];
      if distanceToPositiveBoundary <= 0.0 || distanceToNegativeBoundary >= 0.0 {
        return AlreadyOut;
      }
      if Abs(axisSpeed[i]) > Epsilon {
        var timeToPositiveBoundary := distanceToPositiveBoundary / axisSpeed[i];
        var timeToNegativeBoundary := distanceToNegativeBoundary / axisSpeed[i];
        var timeToReachBoundary := EarlierOf(Candidate(timeToPositiveBoundary), Candidate(timeToNegativeBoundary));
        if timeToReachBoundary.Some? && timeToReachBoundary.value > 0.0
          && (minPositiveTime.None? || timeToReachBoundary.value < minPositiveTime.value)
        {
          minPositiveTime := timeToReachBoundary;
        }
      }
      assert crossings[..i + 1][..i] == crossings[..i];
    }
    assert crossings[..3] == crossings;
    assert AxisSpeeds(waterSpeed, thrusterSpeed) == axisSpeed;
    r := match minPositiveTime
      case None => Never
      case Some(m) => Time(m);
  }

  // ---------------------------------------------------------------------
  // Properties of one axis

  /** A moving axis strictly inside the cube always has a crossing time, and
      it is the time to the face it moves towards. */
  lemma AxisCrossingIsExitTime(p: real, s: real)
    requires !OutOfBounds(p) && Moving(s)
    ensures AxisCrossing(p, s) == Some(ExitTime(p, s))
    ensures ExitTime(p, s) > 0.0
  {}

  /** A non-moving axis has no crossing time. */
  lemma StillAxisHasNoCrossing(p: real, s: real)
    requires !Moving(s)
    ensures AxisCrossing(p, s) == None
  {}

  /** Where an axis is at time `tt`, starting at `p` with speed `s`. */
  function Trajectory(p: real, s: real, tt: real): real {
    p + s * tt
  }

  predicate Inside(x: real) {
    -MaxPosition <= x <= MaxPosition
  }

  predicate OnFace(x: real) {
    x == MaxPosition || x == -MaxPosition
  }

  /** Axes the estimator accounts for: those above the epsilon threshold,
      and those standing exactly still. */
  predicate Tracked(s: real) {
    s == 0.0 || Moving(s)
  }

  /** Moving at speed `s` from inside, the axis stays in the cube up to its
      exit time. */
  lemma AxisInsideUntilExit(p: real, s: real, tt: real)
    requires !OutOfBounds(p) && s != 0.0
    requires 0.0 <= tt <= ExitTime(p, s)
    ensures Inside(Trajectory(p, s, tt))
  {}

  /** At its exit time the axis is on the face it moves towards. */
  lemma AxisOnFaceAtExit(p: real, s: real)
    requires s != 0.0
    ensures OnFace(Trajectory(p, s, ExitTime(p, s)))
  {}

  // ---------------------------------------------------------------------
  // The running minimum

  /** The left fold computes the minimum of the times in the list. */
  lemma {:induction false} EarliestCrossingIsEarliest(c: seq<Option<real>>)
    ensures IsEarliest(c, EarliestCrossing(c))
  {
    if c != [] {
      var init, last := c[..|c| - 1], c[|c| - 1];
      EarliestCrossingIsEarliest(init);
      var m0 := EarliestCrossing(init);
      var m := EarliestCrossing(c);
      assert m == EarlierOf(m0, last);
      forall i | 0 <= i < |c| - 1
        ensures c[i] == init[i]
      {}
      if m.Some? {
        if m == last {
          assert c[|c| - 1] == m;
        } else {
          var k :| 0 <= k < |init| && init[k] == m;
          assert c[k] == m;
        }
      }
    }
  }

  /** The minimum depends only on which times occur, not on their order. */
  lemma EarliestIsUnique(c: seq<Option<real>>, d: seq<Option<real>>, a: Option<real>, b: Option<real>)
    requires IsEarliest(c, a) && IsEarliest(d, b)
    requires forall x :: x in c <==> x in d
    ensures a == b
  {
    if a.None? {
      forall j | 0 <= j < |d|
        ensures d[j].None?
      {
        assert d[j] in c;
      }
    } else {
      var i :| 0 <= i < |c| && c[i] == a;
      assert a in d;
      var j :| 0 <= j < |d| && d[j] == a;
      var k :| 0 <= k < |d| && d[k] == b;
      assert b in c;
      var l :| 0 <= l < |c| && c[l] == b;
      assert b.value <= d[j].value;
      assert a.value <= c[l].value;
    }
  }

  // ---------------------------------------------------------------------
  // Properties of the estimator

  /** Any input vector of a length other than 3 gives the validation failure,
      and only such inputs do. */
  lemma InvalidExactlyOnBadLength(position: seq<real>, waterSpeed: seq<real>, thrusterSpeed: seq<real>)
    ensures CountLeaveArea(position, waterSpeed, thrusterSpeed) == Invalid
        <==> |position| != 3 || |waterSpeed| != 3 || |thrusterSpeed| != 3
  {}

  /** With valid lengths the result is `AlreadyOut` (the early "0.00" return)
      exactly when some axis is at or past a face, whatever the velocities. */
  lemma AlreadyOutExactlyWhenOutside(position: seq<real>, waterSpeed: seq<real>, thrusterSpeed: seq<real>)
    requires |position| == 3 && |waterSpeed| == 3 && |thrusterSpeed| == 3
    ensures CountLeaveArea(position, waterSpeed, thrusterSpeed) == AlreadyOut
        <==> exists i :: 0 <= i < 3 && (position[i] >= MaxPosition || position[i] <= -MaxPosition)
  {}

  /** Inside the cube the result is "Never" exactly when no axis speed
      exceeds epsilon in magnitude. */
  lemma NeverExactlyWhenNoAxisMoves(position: seq<real>, waterSpeed: seq<real>, thrusterSpeed: seq<real>)
    requires |position| == 3 && |waterSpeed| == 3 && |thrusterSpeed| == 3
    requires forall i :: 0 <= i < 3 ==> !OutOfBounds(position[i])
    ensures CountLeaveArea(position, waterSpeed, thrusterSpeed) == Never
        <==> forall i :: 0 <= i < 3 ==> Abs(waterSpeed[i] + thrusterSpeed[i]) <= Epsilon
  {
    var v := AxisSpeeds(waterSpeed, thrusterSpeed);
    var c := Crossings(position, v);
    EarliestCrossingIsEarliest(c);
    forall i | 0 <= i < 3
      ensures c[i].None? <==> !Moving(v[i])
    {
      if Moving(v[i]) {
        AxisCrossingIsExitTime(position[i], v[i]);
      }
    }
  }

  /** A finite result is never zero or negative. */
  lemma TimeIsPositive(position: seq<real>, waterSpeed: seq<real>, thrusterSpeed: seq<real>)
    ensures CountLeaveArea(position, waterSpeed, thrusterSpeed).Time? ==>
              CountLeaveArea(position, waterSpeed, thrusterSpeed).t > 0.0
  {
    if |position| == 3 && |waterSpeed| == 3 && |thrusterSpeed| == 3 {
      EarliestCrossingIsEarliest(Crossings(position, AxisSpeeds(waterSpeed, thrusterSpeed)));
    }
  }

  /** A finite result is positive, is the exit time of some moving axis, and
      is no later than the exit time of any moving axis. */
  lemma TimeIsEarliestExit(position: seq<real>, waterSpeed: seq<real>, thrusterSpeed: seq<real>)
    requires CountLeaveArea(position, waterSpeed, thrusterSpeed).Time?
    ensures |position| == 3 && |waterSpeed| == 3 && |thrusterSpeed| == 3
    ensures forall i :: 0 <= i < 3 ==> !OutOfBounds(position[i])
    ensures var t := CountLeaveArea(position, waterSpeed, thrusterSpeed).t;
      && t > 0.0
      && (exists i :: 0 <= i < 3 && Moving(waterSpeed[i] + thrusterSpeed[i])
            && t == ExitTime(position[i], waterSpeed[i] + thrusterSpeed[i]))
      && (forall i :: 0 <= i < 3 && Moving(waterSpeed[i] + thrusterSpeed[i])
            ==> t <= ExitTime(position[i], waterSpeed[i] + thrusterSpeed[i]))
  {
    var t := CountLeaveArea(position, waterSpeed, thrusterSpeed).t;
    var v := AxisSpeeds(waterSpeed, thrusterSpeed);
    var c := Crossings(position, v);
    EarliestCrossingIsEarliest(c);
    assert EarliestCrossing(c) == Some(t);
    var k :| 0 <= k < 3 && c[k] == Some(t);
    assert Moving(v[k]);
    AxisCrossingIsExitTime(position[k], v[k]);
    forall i | 0 <= i < 3 && Moving(v[i])
      ensures t <= ExitTime(position[i], v[i])
    {
      AxisCrossingIsExitTime(position[i], v[i]);
    }
  }

  /** Soundness: up to the returned time every tracked axis stays inside
      the cube. */
  lemma StaysInsideUntilExit(position: seq<real>, waterSpeed: seq<real>, thrusterSpeed: seq<real>, t: real, tt: real)
    requires CountLeaveArea(position, waterSpeed, thrusterSpeed) == Time(t)
    requires 0.0 <= tt <= t
    ensures |position| == 3 && |waterSpeed| == 3 && |thrusterSpeed| == 3
    ensures forall i :: 0 <= i < 3 && Tracked(waterSpeed[i] + thrusterSpeed[i]) ==>
                          Inside(Trajectory(position[i], waterSpeed[i] + thrusterSpeed[i], tt))
  {
    TimeIsEarliestExit(position, waterSpeed, thrusterSpeed);
    forall i | 0 <= i < 3 && Tracked(waterSpeed[i] + thrusterSpeed[i])
      ensures Inside(Trajectory(position[i], waterSpeed[i] + thrusterSpeed[i], tt))
    {
      var s := waterSpeed[i] + thrusterSpeed[i];
      if s == 0.0 {
        assert !OutOfBounds(position[i]);
        assert Trajectory(position[i], s, tt) == position[i];
      } else {
        AxisInsideUntilExit(position[i], s, tt);
      }
    }
  }

  /** At the returned time the sensor is on a face of the cube. */
  lemma OnFaceAtEstimate(position: seq<real>, waterSpeed: seq<real>, thrusterSpeed: seq<real>, t: real)
    requires CountLeaveArea(position, waterSpeed, thrusterSpeed) == Time(t)
    ensures |position| == 3 && |waterSpeed| == 3 && |thrusterSpeed| == 3
    ensures exists i :: 0 <= i < 3 && OnFace(Trajectory(position[i], waterSpeed[i] + thrusterSpeed[i], t))
  {
    TimeIsEarliestExit(position, waterSpeed, thrusterSpeed);
    var k :| 0 <= k < 3 && Moving(waterSpeed[k] + thrusterSpeed[k])
      && t == ExitTime(position[k], waterSpeed[k] + thrusterSpeed[k]);
    AxisOnFaceAtExit(position[k], waterSpeed[k] + thrusterSpeed[k]);
  }

  /** The epsilon guard makes soundness fail for slow axes: here the x axis
      drifts at 1e-11 and leaves the cube long before the reported time
      5e13, which comes from the y axis. */
  lemma SlowDriftLeavesBeforeEstimate()
    ensures CountLeaveArea([9999.99, 0.0, 0.0], [0.00000000001, 0.0000000002, 0.0], [0.0, 0.0, 0.0])
      == Time(50000000000000.0)
    ensures !Inside(Trajectory(9999.99, 0.00000000001, 50000000000000.0))
  {
    var p, w, th := [9999.99, 0.0, 0.0], [0.00000000001, 0.0000000002, 0.0], [0.0, 0.0, 0.0];
    var v := AxisSpeeds(w, th);
    assert v == [0.00000000001, 0.0000000002, 0.0];
    var c := Crossings(p, v);
    assert !Moving(0.00000000001) && !Moving(0.0);
    AxisCrossingIsExitTime(0.0, 0.0000000002);
    assert ExitTime(0.0, 0.0000000002) == 50000000000000.0;
    assert c == [None, Some(50000000000000.0), None];
    assert EarliestCrossing(c[..1]) == None;
    assert EarliestCrossing(c[..2]) == Some(50000000000000.0);
    assert c[..3] == c;
  }

  /** Water and thruster speed enter only through their sum. */
  lemma SwapSpeedsInvariant(position: seq<real>, waterSpeed: seq<real>, thrusterSpeed: seq<real>)
    ensures CountLeaveArea(position, waterSpeed, thrusterSpeed)
         == CountLeaveArea(position, thrusterSpeed, waterSpeed)
  {
    if |position| == 3 && |waterSpeed| == 3 && |thrusterSpeed| == 3 {
      assert AxisSpeeds(waterSpeed, thrusterSpeed) == AxisSpeeds(thrusterSpeed, waterSpeed);
    }
  }

  /** `perm` lists each of the three axes exactly once. */
  predicate IsAxisPermutation(perm: seq<int>) {
    && |perm| == 3
    && (forall k :: 0 <= k < 3 ==> 0 <= perm[k] < 3)
    && (forall j :: 0 <= j < 3 ==> j in perm)
  }

  /** The vector with its axes reordered by `perm`. */
  function Permute(s: seq<real>, perm: seq<int>): (r: seq<real>)
    requires IsAxisPermutation(perm) && |s| == 3
    ensures |r| == 3 && forall k :: 0 <= k < 3 ==> r[k] == s[perm[k]]
  {
    seq(3, k requires 0 <= k < 3 => s[perm[k]])
  }

  /** Relabelling the axes consistently in all three vectors does not change
      the estimate: the minimum is independent of axis order. */
  lemma AxisPermutationInvariant(position: seq<real>, waterSpeed: seq<real>, thrusterSpeed: seq<real>, perm: seq<int>)
    requires IsAxisPermutation(perm)
    requires |position| == 3 && |waterSpeed| == 3 && |thrusterSpeed| == 3
    ensures CountLeaveArea(Permute(position, perm), Permute(waterSpeed, perm), Permute(thrusterSpeed, perm))
         == CountLeaveArea(position, waterSpeed, thrusterSpeed)
  {
    var p, w, th := Permute(position, perm), Permute(waterSpeed, perm), Permute(thrusterSpeed, perm);
    PermutedOutOfBounds(position, perm);
    var c := Crossings(position, AxisSpeeds(waterSpeed, thrusterSpeed));
    var d := Crossings(p, AxisSpeeds(w, th));
    PermutedCrossingsSameTimes(position, waterSpeed, thrusterSpeed, perm);
    EarliestCrossingIsEarliest(c);
    EarliestCrossingIsEarliest(d);
    EarliestIsUnique(c, d, EarliestCrossing(c), EarliestCrossing(d));
  }

  lemma PermutedOutOfBounds(position: seq<real>, perm: seq<int>)
    requires IsAxisPermutation(perm) && |position| == 3
    ensures (exists k :: 0 <= k < 3 && OutOfBounds(Permute(position, perm)[k]))
        <==> (exists j :: 0 <= j < 3 && OutOfBounds(position[j]))
  {
    var p := Permute(position, perm);
    if exists j :: 0 <= j < 3 && OutOfBounds(position[j]) {
      var j :| 0 <= j < 3 && OutOfBounds(position[j]);
      assert j in perm;
      var k :| 0 <= k < 3 && perm[k] == j;
      assert OutOfBounds(p[k]);
    }
  }

  lemma PermutedCrossingsSameTimes(position: seq<real>, waterSpeed: seq<real>, thrusterSpeed: seq<real>, perm: seq<int>)
    requires IsAxisPermutation(perm)
    requires |position| == 3 && |waterSpeed| == 3 && |thrusterSpeed| == 3
    ensures var c := Crossings(position, AxisSpeeds(waterSpeed, thrusterSpeed));
      var d := Crossings(Permute(position, perm),
                         AxisSpeeds(Permute(waterSpeed, perm), Permute(thrusterSpeed, perm)));
      forall x :: x in c <==> x in d
  {
    var c := Crossings(position, AxisSpeeds(waterSpeed, thrusterSpeed));
    var d := Crossings(Permute(position, perm), AxisSpeeds(Permute(waterSpeed, perm), Permute(thrusterSpeed, perm)));
    forall x
      ensures x in c <==> x in d
    {
      if x in c {
        var j :| 0 <= j < 3 && c[j] == x;
        assert j in perm;
        var k :| 0 <= k < 3 && perm[k] == j;
        assert d[k] == x;
      }
      if x in d {
        var k :| 0 <= k < 3 && d[k] == x;
        assert c[perm[k]] == x;
      }
    }
  }

  /** Six worked inputs of the estimator. */
  lemma Scenarios()
    ensures CountLeaveArea([0.0, 0.0, 0.0], [0.0, 0.0, 0.0], [0.0, 0.0, 0.0]) == Never
    ensures CountLeaveArea([9999.0, 0.0, 0.0], [1.0, 0.0, 0.0], [0.0, 0.0, 0.0]) == Time(1.0)
    ensures CountLeaveArea([10000.0, 0.0, 0.0], [5.0, 0.0, 0.0], [0.0, 0.0, 0.0]) == AlreadyOut
    ensures CountLeaveArea([0.0, 0.0, 0.0], [1.0, 0.0, 0.0], [-1.0, 0.0, 0.0]) == Never
    ensures CountLeaveArea([5000.0, 5000.0, 5000.0], [1.0, 1.0, 1.0], [0.0, 0.0, 0.0]) == Time(5000.0)
    ensures CountLeaveArea([0.0, 0.0], [0.0, 0.0, 0.0], [0.0, 0.0, 0.0]) == Invalid
  {
    AtRest();
    CancellingSpeeds();
    assert OutOfBounds([10000.0, 0.0, 0.0][0]);
    OneMovingAxis();
    AllAxesAlike();
  }

  lemma AtRest()
    ensures CountLeaveArea([0.0, 0.0, 0.0], [0.0, 0.0, 0.0], [0.0, 0.0, 0.0]) == Never
  {
    NeverExactlyWhenNoAxisMoves([0.0, 0.0, 0.0], [0.0, 0.0, 0.0], [0.0, 0.0, 0.0]);
  }

  lemma CancellingSpeeds()
    ensures CountLeaveArea([0.0, 0.0, 0.0], [1.0, 0.0, 0.0], [-1.0, 0.0, 0.0]) == Never
  {
    NeverExactlyWhenNoAxisMoves([0.0, 0.0, 0.0], [1.0, 0.0, 0.0], [-1.0, 0.0, 0.0]);
  }

  lemma OneMovingAxis()
    ensures CountLeaveArea([9999.0, 0.0, 0.0], [1.0, 0.0, 0.0], [0.0, 0.0, 0.0]) == Time(1.0)
  {
    var p, w, th := [9999.0, 0.0, 0.0], [1.0, 0.0, 0.0], [0.0, 0.0, 0.0];
    var v := AxisSpeeds(w, th);
    assert v == [1.0, 0.0, 0.0];
    var c := Crossings(p, v);
    assert !Moving(0.0);
    AxisCrossingIsExitTime(9999.0, 1.0);
    assert ExitTime(9999.0, 1.0) == 1.0;
    assert c == [Some(1.0), None, None];
    assert EarliestCrossing(c[..1]) == Some(1.0);
    assert EarliestCrossing(c[..2]) == Some(1.0);
    assert c[..3] == c;
  }

  lemma AllAxesAlike()
    ensures CountLeaveArea([5000.0, 5000.0, 5000.0], [1.0, 1.0, 1.0], [0.0, 0.0, 0.0]) == Time(5000.0)
  {
    var p, w, th := [5000.0, 5000.0, 5000.0], [1.0, 1.0, 1.0], [0.0, 0.0, 0.0];
    var v := AxisSpeeds(w, th);
    assert v == [1.0, 1.0, 1.0];
    var c := Crossings(p, v);
    AxisCrossingIsExitTime(5000.0, 1.0);
    assert ExitTime(5000.0, 1.0) == 5000.0;
    assert c == [Some(5000.0), Some(5000.0), Some(5000.0)];
    assert EarliestCrossing(c[..1]) == Some(5000.0);
    assert EarliestCrossing(c[..2]) == Some(5000.0);
    assert c[..2][..1] == [Some(5000.0)];
    assert c[..2] == [Some(5000.0), Some(5000.0)];
    assert c[..3] == c;
  }
}
