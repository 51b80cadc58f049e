/** The lateral controller's decision logic: the speed-proportional
    lookahead distance with its clamp, the scan for the forward target
    point, and the search for the global-path waypoint nearest the
    vehicle. The world-to-vehicle transform (cos, sin and a matrix inverse)
    is abstracted as a function of type `Frame`. */
module PurePursuit {
  import opened Geometry

  /** The vehicle-frame coordinates of a map point, given the vehicle's
      position and yaw: the inverse of the pose's rigid transform. */
  type Frame = (Point, real, Point) -> LocalPoint

  /** `max(minLfd, min(gain * v, maxLfd))`: the lookahead grows with speed
      and is clamped to [minLfd, maxLfd]. */
  function LookaheadDistance(v: real, minLfd: real, maxLfd: real, gain: real): (lfd: real)
    ensures lfd >= minLfd
    ensures minLfd <= maxLfd ==> lfd <= maxLfd
    ensures minLfd <= gain * v <= maxLfd ==> lfd == gain * v
    ensures minLfd <= maxLfd && gain * v <= minLfd ==> lfd == minLfd
    ensures minLfd <= maxLfd && gain * v >= maxLfd ==> lfd == maxLfd
  {
    var bounded := if gain * v < maxLfd then gain * v else maxLfd;
    if minLfd > bounded then minLfd else bounded
  }

  /** The target test on a vehicle-frame point: ahead of the vehicle
      (x > 0) and at least `lfd` away, compared on squares. */
  predicate IsLookForwardPoint(p: LocalPoint, lfd: real)
  {
    p.x > 0.0 && SqNorm(p) >= lfd * lfd
  }

  /** For a non-negative lookahead the squared test is the test on the root
      distance `dis` the controller computes. */
  lemma LookForwardOnRoot(p: LocalPoint, dis: real, lfd: real)
    requires dis >= 0.0 && dis * dis == SqNorm(p) && lfd >= 0.0
    ensures IsLookForwardPoint(p, lfd) <==> p.x > 0.0 && dis >= lfd
  {
    SquaredBound(dis, lfd);
  }

  /** Scans the path in order, transforming each point into the frame of the
      vehicle at `position` with heading `yaw`, and stops at the first that
      passes the target test. The scan finds a point exactly when one
      exists, and then it is the first; otherwise it runs to the end. */
  method FirstForwardPoint(path: seq<Point>, frame: Frame, position: Point, yaw: real, lfd: real)
    returns (found: bool, k: nat)
    ensures found <==> exists j :: 0 <= j < |path| && IsLookForwardPoint(frame(position, yaw, path[j]), lfd)
    ensures found ==> k < |path| && IsLookForwardPoint(frame(position, yaw, path[k]), lfd)
    ensures forall j :: 0 <= j < k && j < |path| ==> !IsLookForwardPoint(frame(position, yaw, path[j]), lfd)
    ensures !found ==> k == |path|
  {
    found := false;
    k := 0;
    while k < |path|
      invariant k <= |path|
      invariant forall j :: 0 <= j < k ==> !IsLookForwardPoint(frame(position, yaw, path[j]), lfd)
    {
      var local := frame(position, yaw, path[k]);
      if local.x > 0.0 {
        if SqNorm(local) >= lfd * lfd {
          found := true;
          break;
        }
      }
      k := k + 1;
    }
  }

  /** Squared planar distance from the vehicle to waypoint `i`. */
  function WaypointDist(ego: Point, path: seq<Point>, i: nat): real
    requires i < |path|
  {
    SqDist2(ego, path[i])
  }

  /** Linear scan for the waypoint nearest the vehicle. -1 means the path is
      empty; otherwise the index is in range, no waypoint is nearer, and it
      is the first of the nearest ones, since only a strictly smaller
      distance replaces the running minimum. The running minimum starts
      out as infinity, which the model spells as "no waypoint yet". */
  method GetCurrentWaypoint(ego: Point, path: seq<Point>) returns (w: int)
    ensures w == -1 <==> |path| == 0
    ensures |path| > 0 ==> 0 <= w < |path|
    ensures 0 <= w < |path| ==> forall j :: 0 <= j < |path| ==> WaypointDist(ego, path, w) <= WaypointDist(ego, path, j)
    ensures 0 <= w < |path| ==> forall j :: 0 <= j < w ==> WaypointDist(ego, path, j) > WaypointDist(ego, path, w)
  {
    var minDist := 0.0;
    w := -1;
    var i := 0;
    while i < |path|
      invariant 0 <= i <= |path|
      invariant -1 <= w < i
      invariant w == -1 <==> i == 0
      invariant w >= 0 ==> minDist == WaypointDist(ego, path, w)
      invariant w >= 0 ==> forall j :: 0 <= j < i ==> minDist <= WaypointDist(ego, path, j)
      invariant w >= 0 ==> forall j :: 0 <= j < w ==> WaypointDist(ego, path, j) > minDist
    {
      var dist := SqDist2(ego, path[i]);
      if w == -1 || minDist > dist {
        minDist := dist;
        w := i;
      }
      i := i + 1;
    }
  }
}
