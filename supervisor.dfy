/** The vehicle node: it stores what the subscriptions deliver, builds the
    speed profile once from the first global path, and on every tick either
    stays silent (inputs missing, or dwelling at a bus stop) or publishes one
    command. A published command carries the pure-pursuit steering (zero
    when no forward point was found) and the PID output split into accel and
    brake, overridden by a full brake near a signal in a stop phase and,
    above that, by a full brake when a new bus stop is reached, which also
    starts a six-second dwell. The wall clock is the parameter `now`; the
    world-to-vehicle transform and the steering formula are the parameters
    `frame` and `steer`. */
module Supervisor {
  import opened Geometry
  import opened Longitudinal
  import opened SpeedPlanning
  import opened PurePursuit

  /** The published control message (longitudinal command type 1, throttle
      control, is fixed). */
  datatype Command = Command(steering: real, accel: real, brake: real)

  /** The part of the vehicle status message the controller reads. */
  datatype Status = Status(position: Point, velocityX: real)

  /** A map signal: its identifier and position. */
  datatype Signal = Signal(idx: string, point: Point)

  /** A bus stop of the stop list: its identifier and position. */
  datatype BusStop = BusStop(idx: int, point: Point)

  /** What one tick of the control loop does. `IndexError` is the tick that
      raises because the nearest-waypoint index is outside the speed list. */
  datatype TickOutcome = Silent | Publish(cmd: Command) | IndexError

  /** Accel and brake of a command. */
  datatype Pedals = Pedals(accel: real, brake: real)

  const FullBrake: Pedals := Pedals(0.0, 1.0)

  /** The pure-pursuit steering angle towards a target, given the vehicle's
      position and yaw. */
  type Steer = (Point, real, Point) -> real

  const LightStopRadius: real := 20.0
  const BusStopRadius: real := 3.5
  const DwellTime: real := 6.0
  const KmhPerMs: real := 3.6
  const PointNum: nat := 50
  const CruiseKmh: real := 30.0

  /** Signal phases that stop the vehicle. */
  predicate StopPhase(phase: int)
  {
    phase == 4 || phase == 1
  }

  /** A signal is the reported one and lies within 20 of the vehicle. */
  predicate SignalNear(s: Signal, idx: string, ego: Point)
  {
    s.idx == idx && SqDist3(ego, s.point) <= LightStopRadius * LightStopRadius
  }

  /** Visits every signal; the reported signal within range raises the flag. */
  method LightStopCheck(lights: seq<Signal>, idx: string, ego: Point) returns (lightStop: bool)
    ensures lightStop <==> exists j :: 0 <= j < |lights| && SignalNear(lights[j], idx, ego)
  {
    lightStop := false;
    var i := 0;
    while i < |lights|
      invariant 0 <= i <= |lights|
      invariant lightStop <==> exists j :: 0 <= j < i && SignalNear(lights[j], idx, ego)
    {
      var signal := lights[i];
      if signal.idx == idx {
        if SqDist3(ego, signal.point) <= LightStopRadius * LightStopRadius {
          lightStop := true;
        }
      }
      i := i + 1;
    }
  }

  /** A stop can start a dwell: it is not the last one visited and lies
      within 3.5 of the vehicle. */
  predicate Selectable(stop: BusStop, lastIdx: int, ego: Point)
  {
    stop.idx != lastIdx && SqDist3(ego, stop.point) <= BusStopRadius * BusStopRadius
  }

  /** Stop `k` is the first selectable stop of the list. */
  predicate IsFirstSelectable(stops: seq<BusStop>, lastIdx: int, ego: Point, k: int)
  {
    && 0 <= k < |stops|
    && Selectable(stops[k], lastIdx, ego)
    && forall j :: 0 <= j < k ==> !Selectable(stops[j], lastIdx, ego)
  }

  /** Scans the stop list, skipping the last visited stop, and stops at the
      first stop in range; -1 when there is none. */
  method SelectBusStop(stops: seq<BusStop>, lastIdx: int, ego: Point) returns (k: int)
    ensures k == -1 <==> forall j :: 0 <= j < |stops| ==> !Selectable(stops[j], lastIdx, ego)
    ensures k != -1 ==> IsFirstSelectable(stops, lastIdx, ego, k)
  {
    k := -1;
    var i := 0;
    while i < |stops|
      invariant 0 <= i <= |stops|
      invariant forall j :: 0 <= j < i ==> !Selectable(stops[j], lastIdx, ego)
    {
      var stop := stops[i];
      if lastIdx == stop.idx {
        i := i + 1;
        continue;
      }
      if SqDist3(ego, stop.point) <= BusStopRadius * BusStopRadius {
        k := i;
        break;
      }
      i := i + 1;
    }
  }

  /** Signed actuation to pedals: a positive output is throttle, any other
      is braking by its negation. The three properties pin the split down
      (see SplitUnique). */
  function Split(output: real): (p: Pedals)
    ensures p.accel >= 0.0 && p.brake >= 0.0
    ensures !(p.accel > 0.0 && p.brake > 0.0)
    ensures p.accel - p.brake == output
  {
    if output > 0.0 then Pedals(output, 0.0) else Pedals(0.0, -output)
  }

  /** Any pedal pair that is non-negative, never presses both, and nets the
      output is the split. */
  lemma SplitUnique(output: real, q: Pedals)
    requires q.accel >= 0.0 && q.brake >= 0.0 && !(q.accel > 0.0 && q.brake > 0.0)
    requires q.accel - q.brake == output
    ensures q == Split(output)
  {
  }

  /** The override order of a tick, in the order the tick applies it: the
      split PID output, then the signal stop, then the bus stop. */
  function Arbitrate(output: real, redLightNear: bool, stopSelected: bool): (p: Pedals)
    ensures p.accel >= 0.0 && p.brake >= 0.0 && !(p.accel > 0.0 && p.brake > 0.0)
    ensures stopSelected || redLightNear ==> p == FullBrake
    ensures !stopSelected && !redLightNear ==> p.accel - p.brake == output
  {
    var pedals := Split(output);
    var afterLight := if redLightNear then FullBrake else pedals;
    if stopSelected then FullBrake else afterLight
  }

  /** Python's sequence indexing: negative indices count from the end. */
  predicate InPyRange(s: seq<real>, i: int)
  {
    -|s| <= i < |s|
  }

  function PyAt(s: seq<real>, i: int): real
    requires InPyRange(s, i)
  {
    if i >= 0 then s[i] else s[|s| + i]
  }

  /** Looking up the nearest-waypoint index of the path the profile was built
      from never fails: the profile is at least as long as the path, and the
      empty path's index -1 reads the last entry, which is a stop. */
  lemma ProfileLookup(path: seq<Point>, pointNum: nat, cap: real, fit: seq<Point> -> real, w: int)
    requires w == -1 || 0 <= w < |path|
    ensures InPyRange(Profile(path, pointNum, cap, fit), w)
    ensures w == -1 ==> PyAt(Profile(path, pointNum, cap, fit), w) == 0.0
  {
    ProfileShape(path, pointNum, cap, fit);
  }

  class PurePursuitNode {
    const vehicleLength: real := 2.6
    const minLfd: real := 5.0
    const maxLfd: real := 30.0
    const lfdGain: real := 0.78
    const pid: PidControl
    const velPlanning: VelocityPlanning
    const trafficLights: seq<Signal>
    const busStopPath: seq<BusStop>
    // The global path and the fit the speed profile was planned from.
    ghost const plannedPath: seq<Point>
    ghost const plannedFit: seq<Point> -> real

    // What the subscriptions last delivered.
    var isPath: bool
    var isOdom: bool
    var isStatus: bool
    var isGlobalPath: bool
    var path: seq<Point>
    var currentPosition: Point
    var vehicleYaw: real
    var status: Status
    var globalPath: seq<Point>
    var trafficLightStatus: int
    var trafficLightIdx: string

    // Controller state.
    var lfd: real
    var isLookForwardPoint: bool
    var forwardPoint: Point
    var targetVelocity: real
    var velocityList: seq<real>
    var currentWaypoint: int
    var busStop: bool
    var busIdx: int
    var nowTime: real
    var prevTime: real
    var ctrlCmd: Command

    /** The speed list is the profile of the planned path. */
    ghost predicate Planned()
      reads this`velocityList
    {
      velocityList == Profile(plannedPath, PointNum, CruiseKmh / KmhPerMs, plannedFit)
    }

    /** All three inputs the loop needs have arrived at least once. */
    predicate Ready()
      reads this
    {
      isPath && isOdom && isStatus
    }

    /** The node once the first global path has arrived: the signals and the
        stop list are loaded, the speed profile is planned with window 50 at
        cruise speed 30 km/h (held in m/s), and nothing else has arrived. */
    constructor (lights: seq<Signal>, stops: seq<BusStop>, firstGlobalPath: seq<Point>, fit: seq<Point> -> real)
      ensures fresh(pid) && fresh(velPlanning)
      ensures pid.State() == PidState(0.0, 0.0)
      ensures trafficLights == lights && busStopPath == stops
      ensures !isPath && !isOdom && !isStatus && isGlobalPath && globalPath == firstGlobalPath
      ensures velPlanning.carMaxSpeed == CruiseKmh / KmhPerMs
      ensures velocityList == Profile(firstGlobalPath, PointNum, CruiseKmh / KmhPerMs, fit)
      ensures plannedPath == firstGlobalPath && Planned()
      ensures lfd == 8.0 && !isLookForwardPoint && forwardPoint == Origin && currentPosition == Origin
      ensures targetVelocity == CruiseKmh && trafficLightStatus == 16 && trafficLightIdx == ""
      ensures !busStop && busIdx == 0 && nowTime == 0.0 && prevTime == 0.0
      ensures ctrlCmd == Command(0.0, 0.0, 0.0)
    {
      pid := new PidControl();
      velPlanning := new VelocityPlanning(CruiseKmh / KmhPerMs, 0.15);
      trafficLights := lights;
      busStopPath := stops;
      plannedPath, plannedFit := firstGlobalPath, fit;
      isPath, isOdom, isStatus := false, false, false;
      isGlobalPath, globalPath := true, firstGlobalPath;
      path := [];
      currentPosition, vehicleYaw := Origin, 0.0;
      status := Status(Origin, 0.0);
      trafficLightStatus, trafficLightIdx := 16, "";
      lfd, isLookForwardPoint, forwardPoint := 8.0, false, Origin;
      targetVelocity := CruiseKmh;
      currentWaypoint := 0;
      busStop, busIdx := false, 0;
      nowTime, prevTime := 0.0, 0.0;
      ctrlCmd := Command(0.0, 0.0, 0.0);
      new;
      velocityList := velPlanning.CurvedBaseVelocity(firstGlobalPath, PointNum, fit);
    }

    method PathCallback(msg: seq<Point>)
      modifies this`isPath, this`path
      ensures isPath && path == msg
    {
      isPath := true;
      path := msg;
    }

    /** Stores the odometry: yaw (already converted from the quaternion) and
        the x and y of the position; z keeps its old value. */
    method OdomCallback(position: Point, yaw: real)
      modifies this`isOdom, this`vehicleYaw, this`currentPosition
      ensures isOdom && vehicleYaw == yaw
      ensures currentPosition == Point(position.x, position.y, old(currentPosition).z)
    {
      isOdom := true;
      vehicleYaw := yaw;
      currentPosition := currentPosition.(x := position.x);
      currentPosition := currentPosition.(y := position.y);
    }

    method StatusCallback(msg: Status)
      modifies this`isStatus, this`status
      ensures isStatus && status == msg
    {
      isStatus := true;
      status := msg;
    }

    /** A later global path replaces the stored one; the speed profile is not
        rebuilt. */
    method GlobalPathCallback(msg: seq<Point>)
      modifies this`globalPath, this`isGlobalPath
      ensures isGlobalPath && globalPath == msg
    {
      globalPath := msg;
      isGlobalPath := true;
    }

    method TrafficLightCallback(phase: int, idx: string)
      modifies this`trafficLightStatus, this`trafficLightIdx
      ensures trafficLightStatus == phase && trafficLightIdx == idx
    {
      trafficLightStatus := phase;
      trafficLightIdx := idx;
    }

    /** Some point of the local path passes the target test in the current
        vehicle frame and at the current lookahead. */
    ghost predicate ForwardPointExists(frame: Frame)
      reads this`path, this`currentPosition, this`vehicleYaw, this`lfd
    {
      exists j :: 0 <= j < |path| && IsLookForwardPoint(frame(currentPosition, vehicleYaw, path[j]), lfd)
    }

    /** The forward point is the first point of the local path that passes the
        target test in the current vehicle frame and at the current lookahead. */
    ghost predicate FirstForward(frame: Frame)
      reads this`path, this`currentPosition, this`vehicleYaw, this`lfd, this`forwardPoint
    {
      exists k :: 0 <= k < |path| && forwardPoint == path[k]
        && IsLookForwardPoint(frame(currentPosition, vehicleYaw, path[k]), lfd)
        && forall j :: 0 <= j < k ==> !IsLookForwardPoint(frame(currentPosition, vehicleYaw, path[j]), lfd)
    }

    /** Sets the lookahead from the current speed, searches the local path
        for the forward point and returns the steering towards the forward
        point, which keeps its old value when none is found. */
    method CalcPurePursuit(frame: Frame, steer: Steer) returns (steering: real)
      modifies this`lfd, this`isLookForwardPoint, this`forwardPoint
      ensures lfd == LookaheadDistance(status.velocityX, minLfd, maxLfd, lfdGain)
      ensures minLfd <= lfd <= maxLfd
      ensures isLookForwardPoint == ForwardPointExists(frame)
      ensures isLookForwardPoint ==> FirstForward(frame)
      ensures !isLookForwardPoint ==> forwardPoint == old(forwardPoint)
      ensures steering == steer(currentPosition, vehicleYaw, forwardPoint)
    {
      lfd := LookaheadDistance(status.velocityX, minLfd, maxLfd, lfdGain);
      var position, yaw := currentPosition, vehicleYaw;
      isLookForwardPoint := false;
      var found, k := FirstForwardPoint(path, frame, position, yaw, lfd);
      if found {
        forwardPoint := path[k];
        isLookForwardPoint := true;
        assert IsLookForwardPoint(frame(currentPosition, vehicleYaw, path[k]), lfd);
      }
      steering := steer(position, yaw, forwardPoint);
    }

    /** `currentWaypoint` is the result of the nearest-waypoint search over
        the global path from the status position. */
    ghost predicate NearestWaypoint()
      reads this`currentWaypoint, this`globalPath, this`status
    {
      && (currentWaypoint == -1 <==> |globalPath| == 0)
      && (|globalPath| > 0 ==> 0 <= currentWaypoint < |globalPath|)
      && (0 <= currentWaypoint < |globalPath| ==>
            forall j :: 0 <= j < |globalPath| ==>
              WaypointDist(status.position, globalPath, currentWaypoint) <= WaypointDist(status.position, globalPath, j))
      && (0 <= currentWaypoint < |globalPath| ==>
            forall j :: 0 <= j < currentWaypoint ==>
              WaypointDist(status.position, globalPath, j) > WaypointDist(status.position, globalPath, currentWaypoint))
    }

    /** The reported signal is within 20 of the vehicle and in a stop phase. */
    ghost predicate RedLightNear()
      reads this`trafficLightStatus, this`trafficLightIdx, this`status
    {
      && StopPhase(trafficLightStatus)
      && exists j :: 0 <= j < |trafficLights| && SignalNear(trafficLights[j], trafficLightIdx, status.position)
    }

    /** Some stop other than the one numbered `lastIdx` is within reach. */
    ghost predicate StopInReach(lastIdx: int)
      reads this`status
    {
      exists j :: 0 <= j < |busStopPath| && Selectable(busStopPath[j], lastIdx, status.position)
    }

    /** `busIdx` is the identifier of the first stop selectable after the
        stop numbered `lastIdx`. */
    ghost predicate SelectedFirst(lastIdx: int)
      reads this`status, this`busIdx
    {
      exists k :: IsFirstSelectable(busStopPath, lastIdx, status.position, k) && busIdx == busStopPath[k].idx
    }

    /** The longitudinal half of a tracking tick: the PID call, the
        accel/brake split, the signal override and the bus-stop selection,
        which overrides both and starts the dwell. */
    method Actuate()
      requires !busStop
      modifies this`ctrlCmd, this`busStop, this`busIdx, this`prevTime, pid
      ensures pid.State() == Next(pid.Config(), old(pid.State()), targetVelocity, status.velocityX * KmhPerMs)
      ensures Pedals(ctrlCmd.accel, ctrlCmd.brake)
              == Arbitrate(Output(pid.Config(), old(pid.State()), targetVelocity, status.velocityX * KmhPerMs),
                           RedLightNear(), busStop)
      ensures ctrlCmd.steering == old(ctrlCmd.steering)
      ensures busStop <==> StopInReach(old(busIdx))
      ensures busStop ==> prevTime == nowTime
      ensures busStop ==> SelectedFirst(old(busIdx))
      ensures !busStop ==> prevTime == old(prevTime) && busIdx == old(busIdx)
    {
      var output := pid.Pid(targetVelocity, status.velocityX * KmhPerMs);
      if output > 0.0 {
        ctrlCmd := ctrlCmd.(accel := output, brake := 0.0);
      } else {
        ctrlCmd := ctrlCmd.(accel := 0.0, brake := -output);
      }

      var lightStop := LightStopCheck(trafficLights, trafficLightIdx, status.position);
      if lightStop {
        if trafficLightStatus == 4 || trafficLightStatus == 1 {
          ctrlCmd := ctrlCmd.(accel := 0.0, brake := 1.0);
        }
      }

      var k := SelectBusStop(busStopPath, busIdx, status.position);
      if k != -1 {
        busStop := true;
        busIdx := busStopPath[k].idx;
        assert IsFirstSelectable(busStopPath, old(busIdx), status.position, k);
      }
      if busStop {
        ctrlCmd := ctrlCmd.(accel := 0.0, brake := 1.0);
        prevTime := nowTime;
      }
    }

    /** The lateral half of a tracking tick: pure pursuit, and zero steering
        when no forward point was found. */
    method SteerStep(frame: Frame, steer: Steer)
      modifies this`lfd, this`isLookForwardPoint, this`forwardPoint, this`ctrlCmd
      ensures lfd == LookaheadDistance(status.velocityX, minLfd, maxLfd, lfdGain)
      ensures isLookForwardPoint == ForwardPointExists(frame)
      ensures isLookForwardPoint ==> FirstForward(frame)
      ensures isLookForwardPoint ==> ctrlCmd.steering == steer(currentPosition, vehicleYaw, forwardPoint)
      ensures !isLookForwardPoint ==> ctrlCmd.steering == 0.0 && forwardPoint == old(forwardPoint)
      ensures ctrlCmd.accel == old(ctrlCmd.accel) && ctrlCmd.brake == old(ctrlCmd.brake)
    {
      var steering := CalcPurePursuit(frame, steer);
      if isLookForwardPoint {
        ctrlCmd := ctrlCmd.(steering := steering);
      } else {
        ctrlCmd := ctrlCmd.(steering := 0.0);
      }
    }

    /** A tracking tick once its target speed is set: steer, actuate and
        publish. */
    method Drive(frame: Frame, steer: Steer) returns (outcome: TickOutcome)
      requires !busStop
      modifies this`busStop, this`prevTime, this`busIdx, this`lfd, this`isLookForwardPoint,
               this`forwardPoint, this`ctrlCmd, pid
      ensures outcome == Publish(ctrlCmd)
      ensures lfd == LookaheadDistance(status.velocityX, minLfd, maxLfd, lfdGain)
      ensures isLookForwardPoint == ForwardPointExists(frame)
      ensures isLookForwardPoint ==> FirstForward(frame)
      ensures isLookForwardPoint ==> ctrlCmd.steering == steer(currentPosition, vehicleYaw, forwardPoint)
      ensures !isLookForwardPoint ==> ctrlCmd.steering == 0.0 && forwardPoint == old(forwardPoint)
      ensures pid.State() == Next(pid.Config(), old(pid.State()), targetVelocity, status.velocityX * KmhPerMs)
      ensures Pedals(ctrlCmd.accel, ctrlCmd.brake)
              == Arbitrate(Output(pid.Config(), old(pid.State()), targetVelocity, status.velocityX * KmhPerMs),
                           RedLightNear(), busStop)
      ensures busStop <==> StopInReach(old(busIdx))
      ensures busStop ==> prevTime == nowTime && SelectedFirst(old(busIdx))
      ensures !busStop ==> prevTime == old(prevTime) && busIdx == old(busIdx)
    {
      SteerStep(frame, steer);
      Actuate();
      outcome := Publish(ctrlCmd);
    }

    /** Locates the vehicle on the global path and reads the planned speed of
        its waypoint, with Python's indexing; `ok` is false when that lookup
        raises. */
    method Locate() returns (ok: bool)
      modifies this`currentWaypoint, this`targetVelocity
      ensures NearestWaypoint() && (ok <==> InPyRange(velocityList, currentWaypoint))
      ensures ok ==> targetVelocity == PyAt(velocityList, currentWaypoint) * KmhPerMs
      ensures !ok ==> targetVelocity == old(targetVelocity)
      ensures Planned() && globalPath == plannedPath ==> ok
    {
      currentWaypoint := GetCurrentWaypoint(status.position, globalPath);
      if Planned() && globalPath == plannedPath {
        ProfileLookup(plannedPath, PointNum, CruiseKmh / KmhPerMs, plannedFit, currentWaypoint);
      }
      ok := InPyRange(velocityList, currentWaypoint);
      if ok {
        targetVelocity := PyAt(velocityList, currentWaypoint) * KmhPerMs;
      }
    }

    /** The tracking branch of a tick: locate the vehicle on the global path,
        read its planned speed, steer, actuate and publish. */
    method Track(frame: Frame, steer: Steer) returns (outcome: TickOutcome)
      requires !busStop
      modifies this`busStop, this`prevTime, this`busIdx, this`currentWaypoint,
               this`targetVelocity, this`lfd, this`isLookForwardPoint, this`forwardPoint, this`ctrlCmd, pid
      ensures NearestWaypoint() && (outcome == IndexError <==> !InPyRange(velocityList, currentWaypoint))
      ensures Planned() && globalPath == plannedPath ==> outcome != IndexError
      ensures outcome == IndexError ==>
                && unchanged(pid)
                && unchanged(this`ctrlCmd, this`busStop, this`busIdx, this`prevTime, this`targetVelocity)
                && unchanged(this`lfd, this`isLookForwardPoint, this`forwardPoint)
      ensures outcome != IndexError ==>
                && InPyRange(velocityList, currentWaypoint)
                && outcome == Publish(ctrlCmd)
                && targetVelocity == PyAt(velocityList, currentWaypoint) * KmhPerMs
                && lfd == LookaheadDistance(status.velocityX, minLfd, maxLfd, lfdGain)
                && isLookForwardPoint == ForwardPointExists(frame)
                && (isLookForwardPoint ==> FirstForward(frame))
                && (isLookForwardPoint ==> ctrlCmd.steering == steer(currentPosition, vehicleYaw, forwardPoint))
                && (!isLookForwardPoint ==> ctrlCmd.steering == 0.0 && forwardPoint == old(forwardPoint))
      ensures outcome != IndexError ==>
                && pid.State() == Next(pid.Config(), old(pid.State()), targetVelocity, status.velocityX * KmhPerMs)
                && Pedals(ctrlCmd.accel, ctrlCmd.brake)
                   == Arbitrate(Output(pid.Config(), old(pid.State()), targetVelocity, status.velocityX * KmhPerMs),
                                RedLightNear(), busStop)
                && (busStop <==> StopInReach(old(busIdx)))
                && (busStop ==> prevTime == nowTime && SelectedFirst(old(busIdx)))
                && (!busStop ==> prevTime == old(prevTime) && busIdx == old(busIdx))
    {
      var ok := Locate();
      if !ok {
        return IndexError;
      }
      outcome := Drive(frame, steer);
    }

    /** One pass of the 30 Hz control loop at wall-clock time `now`. */
    method Tick(now: real, frame: Frame, steer: Steer) returns (outcome: TickOutcome)
      modifies this`nowTime, this`busStop, this`prevTime, this`busIdx, this`currentWaypoint,
               this`targetVelocity, this`lfd, this`isLookForwardPoint, this`forwardPoint, this`ctrlCmd, pid
      // Before every input has arrived nothing happens.
      ensures !Ready() ==> outcome == Silent && unchanged(this) && unchanged(pid)
      ensures Ready() ==> nowTime == now
      // Dwelling: nothing is published; the only change is the expiry.
      ensures Ready() && old(busStop) ==>
                && outcome == Silent
                && unchanged(pid)
                && unchanged(this`ctrlCmd, this`busIdx, this`currentWaypoint, this`targetVelocity)
                && unchanged(this`lfd, this`isLookForwardPoint, this`forwardPoint)
                && (if now - old(prevTime) > DwellTime then !busStop && prevTime == now
                    else busStop && prevTime == old(prevTime))
      // Tracking: as Track says, with the bus-stop time taken from `now`.
      ensures Ready() && !old(busStop) ==> NearestWaypoint() && (outcome == IndexError <==> !InPyRange(velocityList, currentWaypoint))
      // On the path the profile was planned from the lookup never fails.
      ensures Planned() && globalPath == plannedPath ==> outcome != IndexError
      ensures Ready() && !old(busStop) && outcome == IndexError ==>
                && unchanged(pid)
                && unchanged(this`ctrlCmd, this`busStop, this`busIdx, this`prevTime, this`targetVelocity)
                && unchanged(this`lfd, this`isLookForwardPoint, this`forwardPoint)
      ensures Ready() && !old(busStop) && outcome != IndexError ==>
                && InPyRange(velocityList, currentWaypoint)
                && outcome == Publish(ctrlCmd)
                && targetVelocity == PyAt(velocityList, currentWaypoint) * KmhPerMs
                && lfd == LookaheadDistance(status.velocityX, minLfd, maxLfd, lfdGain)
                && isLookForwardPoint == ForwardPointExists(frame)
                && (isLookForwardPoint ==> FirstForward(frame))
                && (isLookForwardPoint ==> ctrlCmd.steering == steer(currentPosition, vehicleYaw, forwardPoint))
                && (!isLookForwardPoint ==> ctrlCmd.steering == 0.0 && forwardPoint == old(forwardPoint))
      ensures Ready() && !old(busStop) && outcome != IndexError ==>
                && pid.State() == Next(pid.Config(), old(pid.State()), targetVelocity, status.velocityX * KmhPerMs)
                && Pedals(ctrlCmd.accel, ctrlCmd.brake)
                   == Arbitrate(Output(pid.Config(), old(pid.State()), targetVelocity, status.velocityX * KmhPerMs),
                                RedLightNear(), busStop)
                && (busStop <==> StopInReach(old(busIdx)))
                && (busStop ==> prevTime == now && SelectedFirst(old(busIdx)))
                && (!busStop ==> prevTime == old(prevTime) && busIdx == old(busIdx))
    {
      if !(isPath && isOdom && isStatus) {
        return Silent;
      }
      nowTime := now;
      if busStop {
        if nowTime - prevTime > DwellTime {
          busStop := false;
          prevTime := nowTime;
        }
        return Silent;
      }
      outcome := Track(frame, steer);
    }
  }
}
