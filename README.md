# Adaptive pure-pursuit vehicle controller — Dafny model

This project models the decision and bookkeeping logic of the ROS node in
`final/scripts/advanced_purepursuit.py`. That node is a path-tracking
controller. It plans a target speed for every waypoint of the global path
once, at start-up. At 30 Hz it then:

- finds the waypoint nearest the vehicle;
- steers by pure pursuit, using a lookahead that grows with speed;
- drives the speed with a PID controller whose output it splits into accel
  and brake;
- brakes fully near a signal that is in a stop phase;
- stops for six seconds at each bus stop it reaches.

All numbers are Dafny `real`s. The geometry the node computes with floats
and foreign libraries is passed in as functions:

- `fit` gives the uncapped circle-fit speed `v_max` of a waypoint window; the
  planner caps it at cruise speed itself (`SpeedPlanning.Capped`);
- `Frame` maps a map point into the vehicle frame;
- `Steer` gives the pure-pursuit steering angle.

Every distance test compares squares instead of square roots.
`Geometry.SquaredOrder`, `Geometry.SquaredBound` and
`PurePursuit.LookForwardOnRoot` prove that this makes the same decisions.

The source file defines three classes: `pidControl`, `velocityPlanning` and
the node class `pure_pursuit`. Each is a Dafny class, and the modules are
laid out as follows:

- `Geometry`: points and squared distances, shared by the others.
- `Longitudinal`: `pidControl`. A class `PidControl`; one call as the
  functions `Next` and `Output`; a run of calls as `Run`.
- `SpeedPlanning`: `velocityPlanning`. A class `VelocityPlanning`, whose
  append loops are proved equal to the block-by-block function `Profile`.
- `PurePursuit`: no class. It holds the state-free pieces of the node's
  methods: the lookahead clamp of `calc_pure_pursuit`, its forward-point
  scan (`FirstForwardPoint`), and the nearest-waypoint scan of
  `get_current_waypoint` (`GetCurrentWaypoint`).
- `Supervisor`: the class `pure_pursuit` as `PurePursuitNode`. It holds the
  callbacks, `calc_pure_pursuit` as `CalcPurePursuit`, and the body of the
  main loop as `Tick`. `Tick` is split in source order into `Track`, which
  calls `Locate` and then `Drive`; `Drive` calls `SteerStep` and then
  `Actuate`.

Behaviour of the code that a reader might not expect, and that the model
keeps:

- The approach block appends 30 in m/s, more than three times the cruise
  speed of 30 / 3.6 m/s. The tick multiplies it by 3.6, so the node
  approaches the end of the path faster than it cruises
  (`SpeedPlanning.ApproachAboveCruise`).
- The planner has no fallback to cruise speed for a degenerate circle fit.
  Whatever the fit returns is capped and used.
- The PID is called on every tracking tick, so its integral and previous
  error are updated even when a signal stop or a bus stop then overrides
  its output. It is not called while dwelling.
- While dwelling the node publishes nothing. It does not re-send a brake
  command.
- The accel value is the raw PID output. It is never clamped to [0, 1]
  (lines 144-146), so `Split` and `Arbitrate` bound it only from below.

## Model

| member | source | states |
|---|---|---|
| `Geometry.SquaredOrder` | final/scripts/advanced_purepursuit.py:220-221 | For non-negative distances, the strict order of square roots is the strict order of their squares. This is why the nearest-waypoint comparison can use squared distances. |
| `Geometry.SquaredBound` | final/scripts/advanced_purepursuit.py:174-175 | A non-negative root is at most (at least) a non-negative bound exactly when its square is at most (at least) the bound's square. This covers the 20.0 and 3.5 radius tests. |
| `Longitudinal.PidControl.constructor` | final/scripts/advanced_purepursuit.py:288-294 | The controller starts with previous error 0 and integral 0. Its gains are 0.3, 0.0 and 0.03, with period 0.02. |
| `Longitudinal.PidControl.Pid` | final/scripts/advanced_purepursuit.py:296-315 | After a call, `prevError` is target minus current. `iControl` has grown by exactly `iGain * error * controlTime`, and with the configured zero integral gain it is unchanged. The output is `pGain*error + new iControl + dGain*(error - old prevError)/controlTime`. |
| `Longitudinal.RunIntegral` | final/scripts/advanced_purepursuit.py:308 | After any run of calls, the integral is the starting integral plus `i * dt` times the sum of all errors. It is never reset or clamped. |
| `Longitudinal.RunPrevError` | final/scripts/advanced_purepursuit.py:313 | After a non-empty run of calls, the remembered error is the last call's error. |
| `Longitudinal.ZeroIntegralGain` | final/scripts/advanced_purepursuit.py:290-308 | With integral gain 0, the integral keeps its starting value through every run of calls. |
| `Longitudinal.OutputAfterRun` | final/scripts/advanced_purepursuit.py:307-312 | The output of the call after a run has three terms: P on the new error, the integral of every error so far including the new one, and D on the change from the run's last error. |
| `Longitudinal.SteadyError` | final/scripts/advanced_purepursuit.py:307-312 | When the error equals the remembered error, the D term vanishes. If that error is zero, the output is just the integral term. |
| `SpeedPlanning.VelocityPlanning.constructor` | final/scripts/advanced_purepursuit.py:318-320 | The planner stores its cruise speed and friction coefficient. |
| `SpeedPlanning.VelocityPlanning.CurvedBaseVelocity` | final/scripts/advanced_purepursuit.py:322-372 | The four append loops build exactly `Profile`. That is: cruise speed `point_num` times; then the capped fit over the `2*point_num`-waypoint window of each interior index; then 30 once per index of `range(N-point_num, N-10)`; then ten zeros. |
| `SpeedPlanning.ProfileShape` | final/scripts/advanced_purepursuit.py:325-372 | For every path length, the profile's length is the sum of the four Python range sizes. It is never shorter than the path, and its last ten entries are 0. |
| `SpeedPlanning.ProfileLayout` | final/scripts/advanced_purepursuit.py:325-372 | When `N >= 2*point_num` and `point_num >= 10`: the length is `N`; `[0, point_num)` holds cruise speed; each interior index holds the capped fit of its centred window, at most cruise speed; `[N-point_num, N-10)` holds 30; the last 10 entries hold 0. |
| `SpeedPlanning.ProfileCap` | final/scripts/advanced_purepursuit.py:325-364 | For every path length and whatever the fit returns, the first `point_num` entries equal cruise speed and no interior entry exceeds it. |
| `SpeedPlanning.ApproachAboveCruise` | final/scripts/advanced_purepursuit.py:366-367 | With the node's settings (cruise 30/3.6, window 50), every approach entry is above three times the cruise speed. |
| `PurePursuit.LookaheadDistance` | final/scripts/advanced_purepursuit.py:236 | The lookahead is never below `min_lfd`. It is never above `max_lfd` when `min_lfd <= max_lfd`. It is `gain*v` inside the band, `min_lfd` below it and `max_lfd` above it. |
| `PurePursuit.LookForwardOnRoot` | final/scripts/advanced_purepursuit.py:266-268 | For a non-negative lookahead, the squared target test accepts a point exactly when `x > 0` and its root distance is `>= lfd`. |
| `PurePursuit.FirstForwardPoint` | final/scripts/advanced_purepursuit.py:260-271 | A point is found exactly when some transformed path point has `x > 0` and distance `>= lfd`. It is then the first such point in path order. Otherwise the scan reaches the end of the path. |
| `PurePursuit.GetCurrentWaypoint` | final/scripts/advanced_purepursuit.py:213-224 | Returns -1 exactly for an empty path. Otherwise it returns an in-range index whose distance is `<=` every waypoint's. Every earlier index is strictly farther, so it is the first of the nearest. |
| `Supervisor.LightStopCheck` | final/scripts/advanced_purepursuit.py:151-163 | The light flag is raised exactly when some signal has the reported identifier and lies within 20.0. |
| `Supervisor.SelectBusStop` | final/scripts/advanced_purepursuit.py:170-178 | Returns -1 exactly when no stop other than the last visited one lies within 3.5. Otherwise it returns the first such stop in list order. |
| `Supervisor.Split` | final/scripts/advanced_purepursuit.py:144-149 | Accel and brake are non-negative and never both positive. Accel minus brake is the PID output. |
| `Supervisor.SplitUnique` | final/scripts/advanced_purepursuit.py:144-149 | Any pedal pair with the three properties of `Split` is the split. So those properties fully determine the accel/brake split. |
| `Supervisor.Arbitrate` | final/scripts/advanced_purepursuit.py:144-183 | The pedals are always non-negative and never both pressed. A selected bus stop, or a near signal in phase 4 or 1, gives accel 0 and brake 1. Otherwise the pedals net to the PID output. |
| `Supervisor.ProfileLookup` | final/scripts/advanced_purepursuit.py:132-133 | Looking up the nearest-waypoint index in the profile of the same path never fails. The empty path's -1 reads the last entry, which is 0. `Locate` uses this for the planned path. |
| `Supervisor.PurePursuitNode.constructor` | final/scripts/advanced_purepursuit.py:72-118 | Initial node state: no inputs yet; lookahead 8; light phase 16; no dwell; bus index 0; times 0; an all-zero command. The profile is planned from the first global path with window 50 at cruise 30/3.6, and that path is recorded as the planned path (`Planned`). |
| `Supervisor.PurePursuitNode.PathCallback` | final/scripts/advanced_purepursuit.py:190-192 | Sets the local-path flag and stores the path. |
| `Supervisor.PurePursuitNode.OdomCallback` | final/scripts/advanced_purepursuit.py:194-199 | Sets the odometry flag and stores the yaw and the x and y of the position. The stored z is untouched. |
| `Supervisor.PurePursuitNode.StatusCallback` | final/scripts/advanced_purepursuit.py:201-203 | Sets the status flag and stores the status. |
| `Supervisor.PurePursuitNode.GlobalPathCallback` | final/scripts/advanced_purepursuit.py:205-207 | Replaces the global path. The speed profile is not rebuilt. |
| `Supervisor.PurePursuitNode.TrafficLightCallback` | final/scripts/advanced_purepursuit.py:209-211 | Stores the signal phase and the signal identifier. |
| `Supervisor.PurePursuitNode.CalcPurePursuit` | final/scripts/advanced_purepursuit.py:226-285 | The lookahead is the clamp of the current speed and lies in [5, 30]. The flag is true exactly when a forward point exists. The forward point is then the first qualifying path point; otherwise it keeps its old value. The steering is computed towards the forward point. |
| `Supervisor.PurePursuitNode.SteerStep` | final/scripts/advanced_purepursuit.py:135-140 | The lookahead is the clamp of the speed. When a forward point was found, it is the first qualifying local-path point (`FirstForward`) and the command's steering is the pure-pursuit angle towards it. Otherwise the steering is 0.0 and the forward point keeps its old value. Accel and brake are untouched. |
| `Supervisor.PurePursuitNode.Actuate` | final/scripts/advanced_purepursuit.py:142-183 | The PID state advances by one call. The pedals are `Arbitrate` of the PID output, the near-stop-phase-signal condition and the selection. A selection happens exactly when a stop other than the last visited one is in reach. It records the first such stop's identifier and the current time; otherwise both stay as they were. |
| `Supervisor.PurePursuitNode.Drive` | final/scripts/advanced_purepursuit.py:135-186 | With the target speed set, publishes the tick's command. Its steering is the pure-pursuit angle towards the first qualifying local-path point (`FirstForward`), or 0.0 when there is none. Its pedals are `Arbitrate` of the advanced PID call, the signal condition and the selection. A stop in reach starts the dwell at the tick's time. |
| `Supervisor.PurePursuitNode.Locate` | final/scripts/advanced_purepursuit.py:131-133 | The current waypoint is the nearest-waypoint result on the global path. The lookup succeeds exactly when Python indexing accepts that index, and then the target speed is 3.6 times the entry; otherwise the target speed is unchanged. On the path the profile was planned from, the lookup always succeeds. |
| `Supervisor.PurePursuitNode.Track` | final/scripts/advanced_purepursuit.py:131-186 | Finds the nearest waypoint. If the speed list has no entry for it, the tick raises IndexError with nothing else changed; this never happens on the planned path. Otherwise it sets the target speed to 3.6 times that entry, steers towards the first qualifying forward point, actuates, and publishes the resulting command. |
| `Supervisor.PurePursuitNode.Tick` | final/scripts/advanced_purepursuit.py:125-186 | Before all three inputs have arrived, nothing happens. While dwelling, nothing is published and nothing changes except the expiry once `now - prev_time > 6.0`. Otherwise it tracks as `Track` states: the steering targets the first qualifying forward point, IndexError cannot occur on the planned path, and a new bus stop's dwell starts at `now`. |

## Left out

- ROS node set-up, subscribers, the publisher and the message classes. Publishing is the `Publish` outcome of a tick.
- Concurrency. rospy runs the callbacks (lines 190-211) on subscriber threads, so a callback can fire in the middle of a tick. For example, a status message arriving between the PID call (line 142) and the signal and bus-stop checks (lines 152-174) makes one tick read two different statuses. The flags are also reset (lines 75-78) after the subscribers are registered (lines 65-69), so a message that arrives in between is forgotten. The model runs every tick and every callback atomically, one after another, so it does not capture these interleavings.
- Loading the map signals through the MGeo library and reading the bus-stop JSON file. These are foreign code and file I/O. The signals (a dictionary, modelled as a sequence of entries) and the stop list are constructor inputs.
- The busy wait for the first global path and the 30 Hz `rospy.Rate` loop. The constructor takes the first global path, and a single tick is modelled.
- `time.time()`, a wall-clock read. The tick takes `now` as a parameter.
- The least-squares circle fit, the radius square root and `v_max = sqrt(r * 9.8 * 0.7)`. These are floating-point numerics on a foreign solver, abstracted as `fit`. The `ValueError` that `sqrt` raises on a negative radicand is therefore not modelled. The configured `road_friction` (0.15) is stored but unused by the source.
- The quaternion-to-yaw conversion. `OdomCallback` receives the yaw.
- The cos/sin transform matrix, its inverse and the atan2/sin steering formula. These are abstracted as `Frame` and `Steer`; `vehicle_length` is used only inside the latter. The `ZeroDivisionError` the formula raises when a stale forward point coincides with the vehicle is not modelled.
- Floating-point rounding, infinities and NaN. The nearest-waypoint search's `float('inf')` start value is modelled by the empty sentinel index -1.
- The unit conversions by 3.6 are kept as multiplications only. Physical units are not reasoned about.
- Logging (`rospy.loginfo`) and the `__main__` entry point with its `ROSInterruptException` handler.
