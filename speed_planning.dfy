/** The curvature-based speed planner. It runs once over the global path and
    builds one target speed per waypoint: a cruise block at the start, a
    circle-fit limit capped at cruise speed in the interior, a fixed
    approach speed, and ten zeros at the end. The least-squares circle fit
    and the square roots that turn its radius into a speed are abstracted
    as the function `fit`, applied to the window of waypoints the fit reads. */
module SpeedPlanning {
  import opened Geometry

  /** The fixed approach-block value appended before the final stop. */
  const ApproachSpeed: real := 30.0

  /** Number of trailing zero entries. */
  const StopCount: nat := 10

  /** `v` limited from above by `cap`. */
  function Capped(v: real, cap: real): real
  {
    if v > cap then cap else v
  }

  /** `n` copies of `v`. */
  function Repeat(v: real, n: nat): (s: seq<real>)
    ensures |s| == n && forall k :: 0 <= k < n ==> s[k] == v
  {
    seq(n, _ => v)
  }

  /** How many indices a half-open integer range visits (empty when reversed). */
  function RangeCount(lo: int, hi: int): nat
  {
    if lo <= hi then hi - lo else 0
  }

  /** The fitting window of interior entry `k` (index `pointNum + k`): the
      `2 * pointNum` waypoints from `k` on. */
  function Window(path: seq<Point>, pointNum: nat, k: nat): seq<Point>
    requires k + 2 * pointNum <= |path|
  {
    path[k..k + 2 * pointNum]
  }

  /** The interior block: one capped fit speed per index in [pointNum, N - pointNum). */
  function Interior(path: seq<Point>, pointNum: nat, cap: real, fit: seq<Point> -> real): seq<real>
  {
    var n := RangeCount(pointNum, |path| - pointNum);
    seq(n, k requires 0 <= k < n => Capped(fit(Window(path, pointNum, k)), cap))
  }

  /** Entry `k` of the interior block is the capped fit over its window. */
  lemma InteriorAt(path: seq<Point>, pointNum: nat, cap: real, fit: seq<Point> -> real, k: nat)
    requires k < RangeCount(pointNum, |path| - pointNum)
    ensures |Interior(path, pointNum, cap, fit)| == RangeCount(pointNum, |path| - pointNum)
    ensures Interior(path, pointNum, cap, fit)[k] == Capped(fit(path[k..k + 2 * pointNum]), cap)
  {
    assert Window(path, pointNum, k) == path[k..k + 2 * pointNum];
  }

  /** The whole profile, block by block, with the block sizes Python's
      `range` gives for any path length. */
  function Profile(path: seq<Point>, pointNum: nat, cap: real, fit: seq<Point> -> real): seq<real>
  {
    Repeat(cap, pointNum)
    + Interior(path, pointNum, cap, fit)
    + Repeat(ApproachSpeed, RangeCount(|path| - pointNum, |path| - StopCount))
    + Repeat(0.0, StopCount)
  }

  /** Block sizes of the profile, for every path length. The profile is
      never shorter than the path, so looking up a waypoint index never
      leaves it; it always ends in ten zeros. */
  lemma ProfileShape(path: seq<Point>, pointNum: nat, cap: real, fit: seq<Point> -> real)
    ensures var p := Profile(path, pointNum, cap, fit);
            && |p| == pointNum + RangeCount(pointNum, |path| - pointNum)
                      + RangeCount(|path| - pointNum, |path| - StopCount) + StopCount
            && |p| >= |path|
            && forall k :: |p| - StopCount <= k < |p| ==> p[k] == 0.0
  {
    var p := Profile(path, pointNum, cap, fit);
    assert |Interior(path, pointNum, cap, fit)| == RangeCount(pointNum, |path| - pointNum);
    var tail := Repeat(0.0, StopCount);
    assert p[|p| - StopCount..] == tail;
    forall k | |p| - StopCount <= k < |p| ensures p[k] == 0.0 {
      assert p[k] == tail[k - (|p| - StopCount)];
    }
  }

  /** The layout the planner promises when the path is long enough
      (N >= 2 * pointNum) and the zero block fits inside the approach block
      (pointNum >= 10): one entry per waypoint, cruise speed on
      [0, pointNum), the capped fit on the window centred at each index of
      [pointNum, N - pointNum), the approach speed on [N - pointNum, N - 10),
      zero on [N - 10, N). */
  lemma ProfileLayout(path: seq<Point>, pointNum: nat, cap: real, fit: seq<Point> -> real)
    requires |path| >= 2 * pointNum && pointNum >= StopCount
    ensures var p := Profile(path, pointNum, cap, fit);
            && |p| == |path|
            && (forall i :: 0 <= i < pointNum ==> p[i] == cap)
            && (forall i :: pointNum <= i < |path| - pointNum ==>
                  p[i] == Capped(fit(path[i - pointNum..i + pointNum]), cap) && p[i] <= cap)
            && (forall i :: |path| - pointNum <= i < |path| - StopCount ==> p[i] == ApproachSpeed)
            && (forall i :: |path| - StopCount <= i < |path| ==> p[i] == 0.0)
  {
    var n := |path|;
    var p := Profile(path, pointNum, cap, fit);
    var a := Repeat(cap, pointNum);
    var b := Interior(path, pointNum, cap, fit);
    var c := Repeat(ApproachSpeed, RangeCount(n - pointNum, n - StopCount));
    var d := Repeat(0.0, StopCount);
    assert |b| == n - 2 * pointNum;
    assert p == a + b + c + d;
    forall i | 0 <= i < pointNum ensures p[i] == cap {
      assert p[i] == a[i];
    }
    forall i | pointNum <= i < n - pointNum
      ensures p[i] == Capped(fit(path[i - pointNum..i + pointNum]), cap) && p[i] <= cap
    {
      assert p[i] == b[i - pointNum];
      InteriorAt(path, pointNum, cap, fit, i - pointNum);
    }
    forall i | n - pointNum <= i < n - StopCount ensures p[i] == ApproachSpeed {
      assert p[i] == c[i - (n - pointNum)];
    }
    forall i | n - StopCount <= i < n ensures p[i] == 0.0 {
      assert p[i] == d[i - (n - StopCount)];
    }
  }

  /** The cap holds whatever radius the fit produced: the first block is
      exactly cruise speed and no interior entry exceeds it, for every path
      length. */
  lemma ProfileCap(path: seq<Point>, pointNum: nat, cap: real, fit: seq<Point> -> real)
    ensures var p := Profile(path, pointNum, cap, fit);
            var interiorEnd := pointNum + RangeCount(pointNum, |path| - pointNum);
            && (forall i :: 0 <= i < pointNum ==> p[i] == cap)
            && (forall i :: pointNum <= i < interiorEnd ==> p[i] <= cap)
  {
    var p := Profile(path, pointNum, cap, fit);
    var a := Repeat(cap, pointNum);
    var b := Interior(path, pointNum, cap, fit);
    var interiorEnd := pointNum + RangeCount(pointNum, |path| - pointNum);
    assert p[..interiorEnd] == a + b;
    forall i | 0 <= i < pointNum ensures p[i] == cap {
      assert p[i] == (a + b)[i];
    }
    forall i | pointNum <= i < interiorEnd ensures p[i] <= cap {
      assert p[i] == (a + b)[i] == b[i - pointNum];
      InteriorAt(path, pointNum, cap, fit, i - pointNum);
    }
  }

  /** With the node's configuration (cruise speed 30 km/h stored as 30 / 3.6
      m/s, window 50) the approach block is not below cruise: its value 30
      is more than three times the cruise speed. */
  lemma ApproachAboveCruise(path: seq<Point>, fit: seq<Point> -> real)
    requires |path| >= 100
    ensures var p := Profile(path, 50, 30.0 / 3.6, fit);
            forall i :: |path| - 50 <= i < |path| - StopCount ==> p[i] > 3.0 * (30.0 / 3.6)
  {
    ProfileLayout(path, 50, 30.0 / 3.6, fit);
  }

  /** The planner object: the cruise speed and the friction coefficient it
      was configured with. */
  class VelocityPlanning {
    const carMaxSpeed: real
    const roadFriction: real

    constructor (carMaxSpeed: real, roadFriction: real)
      ensures this.carMaxSpeed == carMaxSpeed && this.roadFriction == roadFriction
    {
      this.carMaxSpeed := carMaxSpeed;
      this.roadFriction := roadFriction;
    }

    /** Builds the profile with four append loops, one per block. */
    method CurvedBaseVelocity(path: seq<Point>, pointNum: nat, fit: seq<Point> -> real)
      returns (outVelPlan: seq<real>)
      ensures outVelPlan == Profile(path, pointNum, carMaxSpeed, fit)
    {
      var n := |path|;
      outVelPlan := [];
      var i := 0;
      while i < pointNum
        invariant 0 <= i <= pointNum
        invariant outVelPlan == Repeat(carMaxSpeed, i)
      {
        outVelPlan := outVelPlan + [carMaxSpeed];
        i := i + 1;
      }

      ghost var cruise := outVelPlan;
      ghost var interior := Interior(path, pointNum, carMaxSpeed, fit);
      i := pointNum;
      while i < n - pointNum
        invariant pointNum <= i && (i <= n - pointNum || i == pointNum)
        invariant outVelPlan == cruise + interior[..i - pointNum]
      {
        var vMax := fit(path[i - pointNum..i + pointNum]);
        if vMax > carMaxSpeed {
          vMax := carMaxSpeed;
        }
        InteriorAt(path, pointNum, carMaxSpeed, fit, i - pointNum);
        assert interior[i - pointNum] == vMax;
        assert interior[..i + 1 - pointNum] == interior[..i - pointNum] + [vMax];
        outVelPlan := outVelPlan + [vMax];
        i := i + 1;
      }
      assert interior[..RangeCount(pointNum, n - pointNum)] == interior;

      ghost var front := outVelPlan;
      i := n - pointNum;
      while i < n - StopCount
        invariant n - pointNum <= i && (i <= n - StopCount || i == n - pointNum)
        invariant outVelPlan == front + Repeat(ApproachSpeed, i - (n - pointNum))
      {
        outVelPlan := outVelPlan + [ApproachSpeed];
        i := i + 1;
      }

      ghost var approach := Repeat(ApproachSpeed, RangeCount(n - pointNum, n - StopCount));
      assert outVelPlan == cruise + interior + approach;
      front := outVelPlan;
      i := n - StopCount;
      while i < n
        invariant n - StopCount <= i <= n
        invariant outVelPlan == front + Repeat(0.0, i - (n - StopCount))
      {
        outVelPlan := outVelPlan + [0.0];
        i := i + 1;
      }
    }
  }
}
